/**
 The list of paired devices and its state file (src/nvhttp.cpp `save_state`, `load_state`,
 `extract_command_entries`): certificates are written once, names are made distinct, and what
 is written reads back.
 */
module DeviceStates {
  import opened Wrappers

  // ----- Data -----

  datatype Command = Command(cmd: string, elevated: bool)

  datatype Device = Device(
    name: string,
    uuid: string,
    cert: string,
    displayMode: string,
    doCmds: seq<Command>,
    undoCmds: seq<Command>,
    perm: Word,
    legacyOrdering: bool,
    clientCommands: bool,
    virtualDisplay: bool)

  /** All permissions: five input bits, five operation bits, three action bits. */
  const ALL: Word := 0x071F_1F00

  type Word = n: nat | n < 0x1_0000_0000

  /** Bitwise and. */
  function And(a: nat, b: nat): (r: nat)
    ensures r <= b
  {
    if a == 0 || b == 0 then 0
    else 2 * And(a / 2, b / 2) + (if a % 2 == 1 && b % 2 == 1 then 1 else 0)
  }

  lemma {:induction false} AndTwice(a: nat, b: nat)
    ensures And(And(a, b), b) == And(a, b)
  {
    if a != 0 && b != 0 {
      AndTwice(a / 2, b / 2);
      var r, bit := And(a / 2, b / 2), if a % 2 == 1 && b % 2 == 1 then 1 else 0;
      assert (2 * r + bit) / 2 == r && (2 * r + bit) % 2 == bit;
    }
  }

  datatype Json =
    | Null
    | Bool(b: bool)
    | Num(n: int)
    | Str(s: string)
    | Arr(items: seq<Json>)
    | Obj(fields: seq<(string, Json)>)

  function Lookup(fields: seq<(string, Json)>, key: string): Option<Json> {
    if fields == [] then None
    else if fields[0].0 == key then Some(fields[0].1)
    else Lookup(fields[1..], key)
  }

  /** `contains` and `at`: only objects have keys. */
  function At(j: Json, key: string): Option<Json> {
    if j.Obj? then Lookup(j.fields, key) else None
  }

  lemma {:induction false} LookupAt(fields: seq<(string, Json)>, i: nat, key: string)
    requires i <= |fields| && (forall j :: 0 <= j < i ==> fields[j].0 != key)
    ensures i < |fields| && fields[i].0 == key ==> Lookup(fields, key) == Some(fields[i].1)
    ensures i == |fields| ==> Lookup(fields, key) == None
    decreases i
  {
    if i > 0 {
      LookupAt(fields[1..], i - 1, key);
    }
  }

  /** What a range-based for sees: members of arrays and objects, nothing in null, a primitive once. */
  function Items(j: Json): seq<Json> {
    match j
    case Arr(items) => items
    case Obj(fields) => seq(|fields|, i requires 0 <= i < |fields| => fields[i].1)
    case Null => []
    case _ => [j]
  }

  // ----- Commands -----

  /** The `elevated` flag: a boolean, the word true, or absent; a number makes the entry malformed. */
  function Elevated(item: Json): Option<bool> {
    match At(item, "elevated")
    case None => Some(false)
    case Some(Bool(b)) => Some(b)
    case Some(Num(_)) => None
    case Some(Str(s)) => Some(s == "true")
    case Some(_) => Some(false)
  }

  function ReadCommand(item: Json): Option<Command> {
    match At(item, "cmd")
    case Some(Str(cmd)) => if Elevated(item).Some? then Some(Command(cmd, Elevated(item).value)) else None
    case _ => None
  }

  /** The well-formed entries, in order. */
  function ReadCommands(items: seq<Json>): seq<Command> {
    if items == [] then []
    else
      var before := ReadCommands(items[..|items| - 1]);
      var last := ReadCommand(items[|items| - 1]);
      if last.Some? then before + [last.value] else before
  }

  function CommandsAt(j: Json, key: string): seq<Command> {
    match At(j, key)
    case Some(list) => ReadCommands(Items(list))
    case None => []
  }

  /** `extract_command_entries`: a malformed entry is skipped, the rest of the list is kept. */
  method ExtractCommands(j: Json, key: string) returns (commands: seq<Command>)
    ensures commands == CommandsAt(j, key)
  {
    commands := [];
    var list := At(j, key);
    if list.Some? {
      var items := Items(list.value);
      for i := 0 to |items|
        invariant commands == ReadCommands(items[..i])
      {
        assert items[..i + 1][..i] == items[..i];
        var entry := ReadCommand(items[i]);
        if entry.Some? {
          commands := commands + [entry.value];
        }
      }
      assert items[..|items|] == items;
    }
  }

  function WriteCommand(c: Command): Json {
    Obj([("cmd", Str(c.cmd)), ("elevated", Bool(c.elevated))])
  }

  function WriteCommands(cs: seq<Command>): seq<Json> {
    seq(|cs|, i requires 0 <= i < |cs| => WriteCommand(cs[i]))
  }

  lemma {:induction false} CommandsRoundTrip(cs: seq<Command>)
    ensures ReadCommands(WriteCommands(cs)) == cs
    decreases |cs|
  {
    if cs != [] {
      var n := |cs| - 1;
      CommandsRoundTrip(cs[..n]);
      assert WriteCommands(cs)[..n] == WriteCommands(cs[..n]);
      CommandRoundTrip(cs[n]);
    }
  }

  /** How the elevated flag of an entry with a command is read: absent means no, a word is compared with true, a number spoils the entry. */
  lemma ElevatedRead(cmd: string, flag: Json)
    ensures ReadCommand(Obj([("cmd", Str(cmd))])) == Some(Command(cmd, false))
    ensures var r := ReadCommand(Obj([("cmd", Str(cmd)), ("elevated", flag)]));
      match flag
      case Bool(b) => r == Some(Command(cmd, b))
      case Str(s) => r == Some(Command(cmd, s == "true"))
      case Num(_) => r == None
      case _ => r == Some(Command(cmd, false))
  {
    var one, two := [("cmd", Str(cmd))], [("cmd", Str(cmd)), ("elevated", flag)];
    assert |"cmd"| != |"elevated"|;
    LookupAt(one, 0, "cmd");
    LookupAt(one, 1, "elevated");
    LookupAt(two, 0, "cmd");
    LookupAt(two, 1, "elevated");
  }

  lemma CommandRoundTrip(c: Command)
    ensures ReadCommand(WriteCommand(c)) == Some(c)
  {
    var f := WriteCommand(c).fields;
    LookupAt(f, 0, "cmd");
    assert |"cmd"| != |"elevated"|;
    LookupAt(f, 1, "elevated");
  }

  /** A list is read piece by piece. */
  lemma {:induction false} ReadAppend(a: seq<Json>, b: seq<Json>)
    ensures ReadCommands(a + b) == ReadCommands(a) + ReadCommands(b)
    decreases |b|
  {
    if b == [] {
      assert a + b == a;
    } else {
      var n := |b| - 1;
      ReadAppend(a, b[..n]);
      assert a + b == (a + b[..n]) + [b[n]];
      ReadSnoc(a + b[..n], b[n]);
    }
  }

  /** An entry that is not well-formed, anywhere in a list, changes nothing else. */
  lemma MalformedIsSkipped(a: seq<Json>, bad: Json, b: seq<Json>)
    requires ReadCommand(bad).None?
    ensures ReadCommands(a + [bad] + b) == ReadCommands(a + b)
  {
    ReadAppend(a + [bad], b);
    ReadAppend(a, b);
    ReadSnoc(a, bad);
  }

  lemma ReadSnoc(items: seq<Json>, last: Json)
    ensures ReadCommands(items + [last])
         == ReadCommands(items) + (if ReadCommand(last).Some? then [ReadCommand(last).value] else [])
  {
    assert (items + [last])[..|items|] == items;
  }

  // ----- Names -----

  /** A name up to its first " (", where a number may have been put. */
  function Base(name: string): string {
    if |name| < 2 then name
    else if name[0] == ' ' && name[1] == '(' then ""
    else [name[0]] + Base(name[1..])
  }

  function Digit(d: nat): char
    requires d < 10
  {
    ('0' as int + d) as char
  }

  function Decimal(n: nat): string {
    if n < 10 then [Digit(n)] else Decimal(n / 10) + [Digit(n % 10)]
  }

  function ValueOf(s: string): int {
    if s == "" then 0 else 10 * ValueOf(s[..|s| - 1]) + (s[|s| - 1] as int - '0' as int)
  }

  lemma {:induction false} DecimalRoundTrip(n: nat)
    ensures ValueOf(Decimal(n)) == n
  {
    if n < 10 {
      assert Decimal(n)[..0] == "";
    } else {
      DecimalRoundTrip(n / 10);
      assert Decimal(n)[..|Decimal(n)| - 1] == Decimal(n / 10);
    }
  }

  function FinalName(base: string, count: nat): string {
    if count > 0 then base + " (" + Decimal(count + 1) + ")" else base
  }

  lemma {:induction false} BaseIsFixed(name: string)
    ensures Base(Base(name)) == Base(name)
  {
    if |name| >= 2 && !(name[0] == ' ' && name[1] == '(') {
      BaseIsFixed(name[1..]);
      var b := Base(name[1..]);
      assert ([name[0]] + b)[1..] == b;
      if |b| > 0 {
        BaseStart(name[1..]);
      }
    }
  }

  lemma BaseStart(name: string)
    requires |Base(name)| > 0
    ensures |name| > 0 && Base(name)[0] == name[0]
  {
  }

  /** A number behind a base name is cut off again. */
  lemma {:induction false} BaseOfNumbered(base: string, tail: string)
    requires Base(base) == base
    ensures Base(base + " (" + tail) == base
  {
    var s := base + " (" + tail;
    if base == "" {
      assert s[0] == ' ' && s[1] == '(';
    } else {
      assert s[1..] == base[1..] + " (" + tail;
      if |base| == 1 {
        assert base[1..] == "";
        BaseOfNumbered("", tail);
      } else {
        FixedRest(base);
        BaseOfNumbered(base[1..], tail);
      }
      assert base == [base[0]] + base[1..];
    }
  }

  lemma FixedRest(base: string)
    requires |base| >= 2 && Base(base) == base
    ensures Base(base[1..]) == base[1..] && !(base[0] == ' ' && base[1] == '(')
  {
    assert base[0] == ' ' && base[1] == '(' ==> Base(base) == "";
    assert Base(base)[1..] == Base(base[1..]);
  }

  lemma BaseOfFinal(base: string, count: nat)
    requires Base(base) == base
    ensures Base(FinalName(base, count)) == base
  {
    if count > 0 {
      BaseOfNumbered(base, Decimal(count + 1) + ")");
      assert FinalName(base, count) == base + " (" + (Decimal(count + 1) + ")");
    }
  }

  lemma FinalNamesDiffer(base: string, j: nat, k: nat)
    requires j != k
    ensures FinalName(base, j) != FinalName(base, k)
  {
    if j > 0 && k > 0 {
      var a, b := Decimal(j + 1), Decimal(k + 1);
      DecimalRoundTrip(j + 1);
      DecimalRoundTrip(k + 1);
      if FinalName(base, j) == FinalName(base, k) {
        SameMiddle(base + " (", a, b, ")");
      }
    }
  }

  lemma SameMiddle(p: string, a: string, b: string, q: string)
    requires p + a + q == p + b + q
    ensures a == b
  {
    assert |a| == |b|;
    assert (p + a + q)[|p|..|p| + |a|] == a;
    assert (p + b + q)[|p|..|p| + |b|] == b;
  }

  // ----- What save_state writes -----

  ghost predicate HasCert(ds: seq<Device>, cert: string) {
    exists i :: 0 <= i < |ds| && ds[i].cert == cert
  }

  /** Devices whose base name is `base`. */
  function CountOf(ds: seq<Device>, base: string): nat {
    if ds == [] then 0
    else CountOf(ds[..|ds| - 1], base) + (if Base(ds[|ds| - 1].name) == base then 1 else 0)
  }

  /** The device as it is written behind `before`. */
  function Renamed(before: seq<Device>, d: Device): Device {
    d.(name := FinalName(Base(d.name), CountOf(before, Base(d.name))))
  }

  /** The devices as they are written: every certificate once, the first time it is seen, and names made distinct. */
  ghost function Canon(ds: seq<Device>): seq<Device> {
    if ds == [] then []
    else
      var before := Canon(ds[..|ds| - 1]);
      var d := ds[|ds| - 1];
      if HasCert(before, d.cert) then before else before + [Renamed(before, d)]
  }

  function CommandField(key: string, cs: seq<Command>): seq<(string, Json)> {
    if cs == [] then [] else [(key, Arr(WriteCommands(cs)))]
  }

  function WriteDevice(d: Device): (j: Json)
    ensures j.Obj?
  {
    Obj(PlainFields(d) + CommandField("do", d.doCmds) + CommandField("undo", d.undoCmds))
  }

  function PlainFields(d: Device): seq<(string, Json)> {
    [("name", Str(d.name)), ("cert", Str(d.cert)), ("uuid", Str(d.uuid)), ("display_mode", Str(d.displayMode)),
     ("perm", Num(d.perm)), ("enable_legacy_ordering", Bool(d.legacyOrdering)),
     ("allow_client_commands", Bool(d.clientCommands)), ("always_use_virtual_display", Bool(d.virtualDisplay))]
  }

  function WriteDevices(ds: seq<Device>): seq<Json> {
    seq(|ds|, i requires 0 <= i < |ds| => WriteDevice(ds[i]))
  }

  ghost function Save(ds: seq<Device>): seq<Json> {
    WriteDevices(Canon(ds))
  }

  // ----- What load_state reads -----

  /** `value(key, default)` on an object; a member of another type throws. */
  function StringAt(j: Json, key: string): Option<string> {
    match At(j, key)
    case None => Some("")
    case Some(Str(s)) => Some(s)
    case Some(_) => None
  }

  function BoolAt(j: Json, key: string, default: bool): Option<bool> {
    match At(j, key)
    case None => Some(default)
    case Some(Bool(b)) => Some(b)
    case Some(_) => None
  }

  /** The stored permissions cut to 32 bits; everything is allowed when they are absent or not a number. */
  function PermAt(j: Json): Word {
    match At(j, "perm")
    case Some(Num(n)) => n % 0x1_0000_0000
    case Some(Bool(b)) => if b then 1 else 0
    case _ => ALL
  }

  function ReadDevice(j: Json): Option<Device> {
    var name, cert, uuid, mode := StringAt(j, "name"), StringAt(j, "cert"), StringAt(j, "uuid"), StringAt(j, "display_mode");
    var legacy := BoolAt(j, "enable_legacy_ordering", true);
    var commands := BoolAt(j, "allow_client_commands", true);
    var display := BoolAt(j, "always_use_virtual_display", false);
    if j.Obj? && name.Some? && cert.Some? && uuid.Some? && mode.Some? && legacy.Some? && commands.Some? && display.Some? then
      Some(Device(name.value, uuid.value, cert.value, mode.value, CommandsAt(j, "do"), CommandsAt(j, "undo"),
        And(PermAt(j), ALL), legacy.value, commands.value, display.value))
    else None
  }

  /** The whole list, or nothing when some entry throws. */
  function Load(nodes: seq<Json>): Option<seq<Device>> {
    if nodes == [] then Some([])
    else
      var before := Load(nodes[..|nodes| - 1]);
      var last := ReadDevice(nodes[|nodes| - 1]);
      if before.Some? && last.Some? then Some(before.value + [last.value]) else None
  }

  // ----- Certificates and names -----

  lemma CanonStep(ds: seq<Device>, d: Device)
    ensures Canon(ds + [d]) == if HasCert(Canon(ds), d.cert) then Canon(ds) else Canon(ds) + [Renamed(Canon(ds), d)]
  {
    assert (ds + [d])[..|ds|] == ds;
  }

  /** Exactly the certificates of the list are kept. */
  lemma {:induction false} CanonKeepsCerts(ds: seq<Device>, cert: string)
    ensures HasCert(Canon(ds), cert) <==> HasCert(ds, cert)
    decreases |ds|
  {
    if ds != [] {
      var n := |ds| - 1;
      CanonKeepsCerts(ds[..n], cert);
      CanonKeepsCerts(ds[..n], ds[n].cert);
      HasSnoc(ds[..n], ds[n], cert);
      assert ds == ds[..n] + [ds[n]];
      HasSnoc(Canon(ds[..n]), Renamed(Canon(ds[..n]), ds[n]), cert);
    }
  }

  lemma HasSnoc(ds: seq<Device>, d: Device, cert: string)
    ensures HasCert(ds + [d], cert) <==> HasCert(ds, cert) || d.cert == cert
  {
    if HasCert(ds, cert) {
      var i :| 0 <= i < |ds| && ds[i].cert == cert;
      assert (ds + [d])[i].cert == cert;
    }
    if d.cert == cert {
      assert (ds + [d])[|ds|].cert == cert;
    }
  }

  ghost predicate DistinctCerts(ds: seq<Device>) {
    forall i, j :: 0 <= i < j < |ds| ==> ds[i].cert != ds[j].cert
  }

  ghost predicate DistinctNames(ds: seq<Device>) {
    forall i, j :: 0 <= i < j < |ds| ==> ds[i].name != ds[j].name
  }

  /** Position of a certificate's first device. */
  function FirstOf(ds: seq<Device>, cert: string): nat {
    if ds == [] || ds[0].cert == cert then 0 else 1 + FirstOf(ds[1..], cert)
  }

  /** Every saved device is the first of its certificate, renamed, and they keep the order of the list. */
  ghost predicate FirstSeenOrder(saved: seq<Device>, ds: seq<Device>) {
    && (forall i :: 0 <= i < |saved| ==>
      FirstOf(ds, saved[i].cert) < |ds| && saved[i] == ds[FirstOf(ds, saved[i].cert)].(name := saved[i].name))
    && (forall i, j :: 0 <= i < j < |saved| ==> FirstOf(ds, saved[i].cert) < FirstOf(ds, saved[j].cert))
  }

  lemma {:induction false} FirstOfSnoc(ds: seq<Device>, d: Device, cert: string)
    ensures FirstOf(ds + [d], cert) == if HasCert(ds, cert) then FirstOf(ds, cert) else |ds| + (if d.cert == cert then 0 else 1)
    ensures HasCert(ds, cert) <==> FirstOf(ds, cert) < |ds|
    ensures FirstOf(ds, cert) < |ds| ==> ds[FirstOf(ds, cert)].cert == cert
    decreases |ds|
  {
    if ds != [] {
      assert (ds + [d])[1..] == ds[1..] + [d];
      FirstOfSnoc(ds[1..], d, cert);
      if ds[0].cert != cert {
        assert HasCert(ds, cert) <==> HasCert(ds[1..], cert) by {
          if HasCert(ds, cert) {
            var i :| 0 <= i < |ds| && ds[i].cert == cert;
            assert ds[1..][i - 1].cert == cert;
          }
          if HasCert(ds[1..], cert) {
            var i :| 0 <= i < |ds[1..]| && ds[1..][i].cert == cert;
            assert ds[i + 1].cert == cert;
          }
        }
      }
    } else {
      assert (ds + [d])[1..] == [];
    }
  }

  /** Saved certificates are unique and keep first-seen order. */
  lemma {:induction false} CertsAreCanonical(ds: seq<Device>)
    ensures DistinctCerts(Canon(ds)) && FirstSeenOrder(Canon(ds), ds)
    decreases |ds|
  {
    if ds != [] {
      var n := |ds| - 1;
      CertsAreCanonical(ds[..n]);
      assert ds == ds[..n] + [ds[n]];
      CanonStep(ds[..n], ds[n]);
      CanonKeepsCerts(ds[..n], ds[n].cert);
      OrderStep(Canon(ds[..n]), ds[..n], ds[n]);
    }
  }

  lemma OrderStep(saved: seq<Device>, ds: seq<Device>, d: Device)
    requires DistinctCerts(saved) && FirstSeenOrder(saved, ds)
    ensures FirstSeenOrder(saved, ds + [d])
    ensures !HasCert(saved, d.cert) && !HasCert(ds, d.cert) ==>
      var more := saved + [Renamed(saved, d)]; DistinctCerts(more) && FirstSeenOrder(more, ds + [d])
  {
    hide Base, FinalName, CountOf, FirstOf;
    forall i | 0 <= i < |saved|
      ensures FirstOf(ds + [d], saved[i].cert) == FirstOf(ds, saved[i].cert)
    {
      FirstOfSnoc(ds, d, saved[i].cert);
    }
    FirstOfSnoc(ds, d, d.cert);
  }

  /** Every name is its base name, numbered by the devices before it with the same base. */
  ghost predicate Numbered(ds: seq<Device>) {
    forall i :: 0 <= i < |ds| ==>
      ds[i].name == FinalName(Base(ds[i].name), CountOf(ds[..i], Base(ds[i].name)))
  }

  lemma NumberedSnoc(ds: seq<Device>, d: Device)
    requires Numbered(ds)
    ensures Numbered(ds + [Renamed(ds, d)])
  {
    var more := ds + [Renamed(ds, d)];
    BaseIsFixed(d.name);
    BaseOfFinal(Base(d.name), CountOf(ds, Base(d.name)));
    forall i | 0 <= i < |more|
      ensures more[i].name == FinalName(Base(more[i].name), CountOf(more[..i], Base(more[i].name)))
    {
      assert more[..i] == ds[..i];
    }
  }

  lemma {:induction false} CanonIsNumbered(ds: seq<Device>)
    ensures Numbered(Canon(ds))
    decreases |ds|
  {
    if ds != [] {
      CanonIsNumbered(ds[..|ds| - 1]);
      NumberedSnoc(Canon(ds[..|ds| - 1]), ds[|ds| - 1]);
    }
  }

  lemma {:induction false} CountGrows(ds: seq<Device>, i: nat, j: nat, base: string)
    requires i < j <= |ds|
    ensures CountOf(ds[..j], base) >= CountOf(ds[..i], base) + (if Base(ds[i].name) == base then 1 else 0)
    decreases j
  {
    assert ds[..j][..j - 1] == ds[..j - 1];
    if i < j - 1 {
      CountGrows(ds, i, j - 1, base);
    }
  }

  /** Saved names are pairwise distinct. */
  lemma NamesAreDistinct(ds: seq<Device>)
    ensures DistinctNames(Canon(ds))
  {
    CanonIsNumbered(ds);
    var saved := Canon(ds);
    forall i, j | 0 <= i < j < |saved| ensures saved[i].name != saved[j].name {
      var base := Base(saved[i].name);
      if saved[i].name == saved[j].name {
        CountGrows(saved, i, j, base);
        FinalNamesDiffer(base, CountOf(saved[..i], base), CountOf(saved[..j], base));
        assert false;
      }
    }
  }

  /** The devices among the first `i` that share a base name. */
  function Sharing(ds: seq<Device>, i: nat, base: string): set<nat>
    requires i <= |ds|
  {
    set j: nat | j < i && Base(ds[j].name) == base
  }

  lemma {:induction false} CountIsSharing(ds: seq<Device>, i: nat, base: string)
    requires i <= |ds|
    ensures CountOf(ds[..i], base) == |Sharing(ds, i, base)|
  {
    hide Base;
    if i > 0 {
      CountIsSharing(ds, i - 1, base);
      assert ds[..i][..i - 1] == ds[..i - 1];
      assert Sharing(ds, i, base) == Sharing(ds, i - 1, base) + (if Base(ds[i - 1].name) == base then {i - 1} else {});
    }
  }

  /** The first device of a name is saved without a number, the second with 2, and so on. */
  lemma SavedNumber(ds: seq<Device>, i: nat)
    requires i < |Canon(ds)|
    ensures var saved := Canon(ds);
      var base := Base(saved[i].name);
      var n := |Sharing(saved, i, base)|;
      && ValueOf(Decimal(n + 1)) == n + 1
      && saved[i].name == if n == 0 then base else base + " (" + Decimal(n + 1) + ")"
  {
    hide Base, Decimal, CountOf, ValueOf, Canon, Sharing;
    CanonIsNumbered(ds);
    CountIsSharing(Canon(ds), i, Base(Canon(ds)[i].name));
    DecimalRoundTrip(|Sharing(Canon(ds), i, Base(Canon(ds)[i].name))| + 1);
  }

  // ----- Canonical lists are fixed -----

  lemma {:induction false} CanonicalIsFixed(ds: seq<Device>)
    requires DistinctCerts(ds) && Numbered(ds)
    ensures Canon(ds) == ds
    decreases |ds|
  {
    hide Base, FinalName, CountOf;
    if ds != [] {
      var n := |ds| - 1;
      PrefixIsCanonical(ds, n);
      CanonicalIsFixed(ds[..n]);
      assert ds == ds[..n] + [ds[n]];
      assert !HasCert(ds[..n], ds[n].cert);
      assert Renamed(ds[..n], ds[n]).name == ds[n].name;
    }
  }

  lemma PrefixIsCanonical(ds: seq<Device>, n: nat)
    requires DistinctCerts(ds) && Numbered(ds) && n < |ds|
    ensures DistinctCerts(ds[..n]) && Numbered(ds[..n])
    ensures ds[n].name == FinalName(Base(ds[n].name), CountOf(ds[..n], Base(ds[n].name)))
  {
    hide Base, FinalName, CountOf;
    assert forall i :: 0 <= i < n ==> ds[..n][..i] == ds[..i];
  }

  function Masked(d: Device): Device {
    d.(perm := And(d.perm, ALL))
  }

  function MaskedAll(ds: seq<Device>): seq<Device> {
    seq(|ds|, i requires 0 <= i < |ds| => Masked(ds[i]))
  }

  lemma {:induction false} MaskKeepsCount(ds: seq<Device>, base: string)
    ensures CountOf(MaskedAll(ds), base) == CountOf(ds, base)
    decreases |ds|
  {
    if ds != [] {
      MaskKeepsCount(ds[..|ds| - 1], base);
      assert MaskedAll(ds)[..|ds| - 1] == MaskedAll(ds[..|ds| - 1]);
    }
  }

  lemma MaskKeepsNumbers(ds: seq<Device>)
    requires Numbered(ds)
    ensures Numbered(MaskedAll(ds))
  {
    var masked := MaskedAll(ds);
    forall i | 0 <= i < |masked|
      ensures masked[i].name == FinalName(Base(masked[i].name), CountOf(masked[..i], Base(masked[i].name)))
    {
      assert masked[..i] == MaskedAll(ds[..i]);
      MaskKeepsCount(ds[..i], Base(ds[i].name));
    }
  }

  /** What was read from a saved list is a list that saving leaves as it is. */
  lemma ReadListIsFixed(ds: seq<Device>)
    ensures Canon(MaskedAll(Canon(ds))) == MaskedAll(Canon(ds))
  {
    CertsAreCanonical(ds);
    CanonIsNumbered(ds);
    MaskKeepsNumbers(Canon(ds));
    CanonicalIsFixed(MaskedAll(Canon(ds)));
  }

  // ----- Reading back -----

  function KeyOf(i: nat): string
    requires i < 10
  {
    if i == 0 then "name" else if i == 1 then "cert" else if i == 2 then "uuid" else if i == 3 then "display_mode"
    else if i == 4 then "perm" else if i == 5 then "enable_legacy_ordering" else if i == 6 then "allow_client_commands"
    else if i == 7 then "always_use_virtual_display" else if i == 8 then "do" else "undo"
  }

  lemma KeysDiffer(i: nat, j: nat)
    requires i < j < 10
    ensures KeyOf(i) != KeyOf(j)
  {
    var a, b := KeyOf(i), KeyOf(j);
    if |a| == |b| {
      assert a[0] != b[0] || a[1] != b[1] || a[2] != b[2];
    }
  }

  /** The plain fields of a written device, by name. */
  lemma PlainField(d: Device, i: nat)
    requires i < 8
    ensures |PlainFields(d)| == 8 && PlainFields(d)[i].0 == KeyOf(i)
    ensures At(WriteDevice(d), KeyOf(i)) == Some(PlainFields(d)[i].1)
  {
    var f := WriteDevice(d).fields;
    forall j | 0 <= j < i ensures f[j].0 != KeyOf(i) {
      assert f[j].0 == KeyOf(j);
      KeysDiffer(j, i);
    }
    LookupAt(f, i, KeyOf(i));
  }

  lemma CommandFields(d: Device)
    ensures CommandsAt(WriteDevice(d), "do") == d.doCmds
    ensures CommandsAt(WriteDevice(d), "undo") == d.undoCmds
  {
    var f := WriteDevice(d).fields;
    var n := if d.doCmds == [] then 8 else 9;
    KeysDiffer(8, 9);
    OtherKeys(d, 8);
    OtherKeys(d, 9);
    LookupAt(f, if d.doCmds == [] then |f| else 8, KeyOf(8));
    LookupAt(f, if d.undoCmds == [] then |f| else n, KeyOf(9));
    CommandsRoundTrip(d.doCmds);
    CommandsRoundTrip(d.undoCmds);
  }

  lemma OtherKeys(d: Device, k: nat)
    requires 8 <= k < 10
    ensures |PlainFields(d)| == 8
    ensures forall j :: 0 <= j < 8 ==> WriteDevice(d).fields[j].0 != KeyOf(k)
  {
    var p := PlainFields(d);
    forall j | 0 <= j < 8 ensures WriteDevice(d).fields[j].0 != KeyOf(k) {
      assert WriteDevice(d).fields[j] == p[j] && p[j].0 == KeyOf(j);
      KeysDiffer(j, k);
    }
  }

  /** A device reads back with every field it was written with, command lists included, permissions cut to the known ones. */
  lemma DeviceRoundTrip(d: Device)
    ensures ReadDevice(WriteDevice(d)) == Some(Masked(d))
  {
    hide Lookup, WriteDevice, CommandsAt, At, And;
    PlainField(d, 0);
    PlainField(d, 1);
    PlainField(d, 2);
    PlainField(d, 3);
    PlainField(d, 4);
    PlainField(d, 5);
    PlainField(d, 6);
    PlainField(d, 7);
    CommandFields(d);
    assert WriteDevice(d).Obj?;
  }

  lemma {:induction false} LoadOfWritten(ds: seq<Device>)
    ensures Load(WriteDevices(ds)) == Some(MaskedAll(ds))
    decreases |ds|
  {
    hide WriteDevice, ReadDevice, Masked;
    if ds != [] {
      var n := |ds| - 1;
      LoadOfWritten(ds[..n]);
      assert WriteDevices(ds)[..n] == WriteDevices(ds[..n]);
      DeviceRoundTrip(ds[n]);
      assert MaskedAll(ds) == MaskedAll(ds[..n]) + [Masked(ds[n])];
    } else {
      assert WriteDevices(ds) == [] && MaskedAll(ds) == [];
    }
  }

  /** What loading a saved list gives: the canonical list, permissions cut to the known ones. */
  lemma LoadOfSave(ds: seq<Device>)
    ensures Load(Save(ds)) == Some(MaskedAll(Canon(ds)))
  {
    LoadOfWritten(Canon(ds));
  }

  ghost predicate KnownPerms(ds: seq<Device>) {
    forall i :: 0 <= i < |ds| ==> And(ds[i].perm, ALL) == ds[i].perm
  }

  /**
   Saving, loading and saving again writes the same file exactly when the devices that were
   written hold known permissions only.
   */
  lemma SaveLoadSaveIff(ds: seq<Device>)
    ensures Load(Save(ds)).Some?
    ensures Save(Load(Save(ds)).value) == Save(ds) <==> KnownPerms(Canon(ds))
  {
    var saved := Canon(ds);
    hide WriteDevices, KnownPerms, Canon, Load;
    LoadOfSave(ds);
    ReadListIsFixed(ds);
    WriteMaskedIff(saved);
  }

  lemma WriteMaskedIff(saved: seq<Device>)
    ensures WriteDevices(MaskedAll(saved)) == WriteDevices(saved) <==> KnownPerms(saved)
  {
    hide And, WriteDevice;
    if KnownPerms(saved) {
      assert MaskedAll(saved) == saved;
    } else {
      var i :| 0 <= i < |saved| && And(saved[i].perm, ALL) != saved[i].perm;
      PermIsWritten(saved[i]);
      assert WriteDevices(saved)[i] == WriteDevice(saved[i]);
      assert WriteDevices(MaskedAll(saved))[i] == WriteDevice(Masked(saved[i]));
    }
  }

  lemma PermIsWritten(d: Device)
    ensures WriteDevice(Masked(d)) == WriteDevice(d) ==> And(d.perm, ALL) == d.perm
  {
    hide And, WriteDevice, At;
    PlainField(d, 4);
    PlainField(Masked(d), 4);
  }

  /** From the second save on the file no longer changes, whatever the permissions were. */
  lemma SecondSaveIsFinal(ds: seq<Device>)
    ensures Load(Save(ds)).Some?
    ensures var once := Load(Save(ds)).value;
      Load(Save(once)) == Some(once)
  {
    var saved := Canon(ds);
    LoadOfSave(ds);
    ReadListIsFixed(ds);
    LoadOfWritten(MaskedAll(saved));
    forall i | 0 <= i < |saved| ensures Masked(Masked(saved[i])) == Masked(saved[i]) {
      AndTwice(saved[i].perm, ALL);
    }
    assert MaskedAll(MaskedAll(saved)) == MaskedAll(saved);
  }

  // ----- Adding a client -----

  /** The list after a client was added: the state is saved and read back unless it is kept fresh. */
  ghost function Added(ds: seq<Device>, d: Device, freshState: bool): seq<Device> {
    if freshState then ds + [d] else MaskedAll(Canon(ds + [d]))
  }

  /** Adding a client makes its certificate known and loses no other; nobody else's becomes known. */
  lemma AddedCerts(ds: seq<Device>, d: Device, freshState: bool, cert: string)
    ensures HasCert(Added(ds, d, freshState), cert) <==> HasCert(ds, cert) || d.cert == cert
  {
    HasSnoc(ds, d, cert);
    CanonKeepsCerts(ds + [d], cert);
    MaskKeepsCerts(Canon(ds + [d]), cert);
  }

  lemma MaskKeepsCerts(ds: seq<Device>, cert: string)
    ensures HasCert(MaskedAll(ds), cert) <==> HasCert(ds, cert)
  {
    if HasCert(ds, cert) {
      var i :| 0 <= i < |ds| && ds[i].cert == cert;
      assert MaskedAll(ds)[i].cert == cert;
    }
    if HasCert(MaskedAll(ds), cert) {
      var i :| 0 <= i < |ds| && MaskedAll(ds)[i].cert == cert;
      assert ds[i].cert == cert;
    }
  }

  // ----- What becomes of a device -----

  /** The base name is the name up to its first " (", or all of it. */
  lemma {:induction false} BaseIs(name: string, n: nat)
    requires n <= |name| && (n < |name| ==> n + 1 < |name| && name[n] == ' ' && name[n + 1] == '(')
    requires forall j :: 0 <= j < n && j + 1 < |name| ==> !(name[j] == ' ' && name[j + 1] == '(')
    ensures Base(name) == name[..n]
  {
    if |name| >= 2 && n > 0 {
      BaseIs(name[1..], n - 1);
      assert name[..n] == [name[0]] + name[1..][..n - 1];
    } else if n == |name| {
      assert name[..n] == name;
    } else {
      assert name[..n] == "";
    }
  }

  /** A saved name is the device's own base name, alone or with a number behind it. */
  ghost predicate NamedAfter(saved: Device, own: Device) {
    exists count: nat :: saved == own.(name := FinalName(Base(own.name), count))
  }

  lemma {:induction false} SavedNameBegins(ds: seq<Device>, i: nat)
    requires i < |Canon(ds)|
    ensures FirstOf(ds, Canon(ds)[i].cert) < |ds|
    ensures NamedAfter(Canon(ds)[i], ds[FirstOf(ds, Canon(ds)[i].cert)])
    ensures Base(ds[FirstOf(ds, Canon(ds)[i].cert)].name) <= Canon(ds)[i].name
    decreases |ds|
  {
    hide Base, FinalName, CountOf, FirstOf;
    var init, d := ds[..|ds| - 1], ds[|ds| - 1];
    assert ds == init + [d];
    CanonStep(init, d);
    var cert := Canon(ds)[i].cert;
    FirstOfSnoc(init, d, cert);
    CanonKeepsCerts(init, cert);
    if i < |Canon(init)| {
      SavedNameBegins(init, i);
      assert HasCert(Canon(init), cert);
    } else {
      FinalBegins(Base(d.name), CountOf(Canon(init), Base(d.name)));
    }
  }

  lemma FinalBegins(base: string, count: nat)
    ensures base <= FinalName(base, count)
  {
  }

  lemma {:induction false} AndSelf(a: nat)
    ensures And(a, a) == a
  {
    if a > 0 {
      AndSelf(a / 2);
    }
  }

  function Pow2(k: nat): nat {
    if k == 0 then 1 else 2 * Pow2(k - 1)
  }

  lemma {:induction false} AndShifted(a: nat, b: nat, k: nat, low: nat)
    requires low < Pow2(k)
    ensures And(a * Pow2(k), b * Pow2(k) + low) == And(a, b) * Pow2(k)
    decreases k
  {
    if k > 0 {
      var p := Pow2(k - 1);
      AndShifted(a, b, k - 1, low / 2);
      AndStep(a * p, b * p + low / 2, low % 2);
      Doubled(a, p);
      Doubled(b, p);
      Doubled(And(a, b), p);
      assert Pow2(k) == 2 * p;
      hide And, Pow2;
    } else {
      assert Pow2(k) == 1 && low == 0;
    }
  }

  lemma Doubled(a: nat, p: nat)
    ensures a * (2 * p) == 2 * (a * p)
  {
  }

  lemma AndStep(a: nat, b: nat, bit: nat)
    requires bit < 2
    ensures And(2 * a, 2 * b + bit) == 2 * And(a, b)
  {
    assert (2 * b + bit) / 2 == b && (2 * a) / 2 == a && (2 * a) % 2 == 0;
  }

  /** Viewing and listing are known permissions. */
  lemma ViewAndListKnown()
    ensures And(0x0300_0000, ALL) == 0x0300_0000
  {
    assert Pow2(8) == 256;
    assert Pow2(16) == 65536;
    assert Pow2(24) == 0x100_0000;
    assert And(3, 7) == 3;
    AndShifted(3, 7, 24, 0x1F_1F00);
    hide And, Pow2;
  }

  /** `load_state` on an entry without any field: all permissions, and the settings of an old client. */
  lemma EmptyEntryReads(fields: seq<(string, Json)>)
    requires fields == []
    ensures ReadDevice(Obj(fields)) == Some(Device("", "", "", "", [], [], ALL, true, true, false))
  {
    AndSelf(ALL);
    hide And;
  }

  predicate TextsAreStrings(j: Json) {
    forall key :: key in {"name", "cert", "uuid", "display_mode"} && At(j, key).Some? ==> At(j, key).value.Str?
  }

  predicate FlagsAreBools(j: Json) {
    forall key :: key in {"enable_legacy_ordering", "allow_client_commands", "always_use_virtual_display"} && At(j, key).Some? ==>
      At(j, key).value.Bool?
  }

  /** A text or flag of the wrong type is all that makes an entry throw; permissions that are no number are all permissions. */
  lemma ThrowsIff(j: Json)
    ensures ReadDevice(j).Some? <==> j.Obj? && TextsAreStrings(j) && FlagsAreBools(j)
    ensures ReadDevice(j).Some? && At(j, "perm").Some? && At(j, "perm").value.Str? ==> ReadDevice(j).value.perm == ALL
  {
    hide And, CommandsAt;
    AndSelf(ALL);
  }

  /** What adding a client makes of the list: a known certificate adds nothing, a new one adds the device behind the others. */
  lemma AddOne(ds: seq<Device>, d: Device)
    ensures Added(ds, d, true) == ds + [d]
    ensures Added(ds, d, false)
         == MaskedAll(Canon(ds)) + (if HasCert(ds, d.cert) then [] else [Masked(Renamed(Canon(ds), d))])
  {
    hide Base, FinalName, CountOf, And, Canon, Renamed, HasCert, MaskedAll;
    CanonStep(ds, d);
    CanonKeepsCerts(ds, d.cert);
    MaskSnoc(Canon(ds), Renamed(Canon(ds), d));
    assert MaskedAll(Canon(ds)) + [] == MaskedAll(Canon(ds));
  }

  lemma MaskSnoc(ds: seq<Device>, d: Device)
    ensures MaskedAll(ds + [d]) == MaskedAll(ds) + [Masked(d)]
  {
  }

  class ClientRoot {
    var namedDevices: seq<Device>

    constructor ()
      ensures namedDevices == []
    {
      namedDevices := [];
    }

    /** `save_state`: a set of the certificates seen and a counter for every base name. */
    method SaveState() returns (nodes: seq<Json>)
      ensures nodes == Save(namedDevices)
    {
      hide Saved, Base, FinalName, WriteDevice, Save;
      var uniqueCerts: set<string> := {};
      var nameCounts: map<string, nat> := map[];
      nodes := [];
      SavedStart(namedDevices);
      for i := 0 to |namedDevices|
        invariant Saved(namedDevices, i, uniqueCerts, nameCounts, nodes)
      {
        var d := namedDevices[i];
        SavedStep(namedDevices, i, uniqueCerts, nameCounts, nodes);
        if d.cert !in uniqueCerts {
          uniqueCerts := uniqueCerts + {d.cert};
          var base := Base(d.name);
          var count := if base in nameCounts then nameCounts[base] else 0;
          nameCounts := nameCounts[base := count + 1];
          nodes := nodes + [WriteDevice(d.(name := FinalName(base, count)))];
        }
      }
      SavedEnd(namedDevices, uniqueCerts, nameCounts, nodes);
    }

    /** `load_state`: the list is replaced as a whole, or not at all when an entry throws. */
    method LoadState(nodes: seq<Json>) returns (ok: bool)
      modifies this
      ensures ok <==> Load(nodes).Some?
      ensures namedDevices == if ok then Load(nodes).value else old(namedDevices)
    {
      var client: seq<Device> := [];
      for i := 0 to |nodes|
        invariant namedDevices == old(namedDevices)
        invariant Load(nodes[..i]) == Some(client)
      {
        assert nodes[..i + 1][..i] == nodes[..i];
        var d := ReadDevice(nodes[i]);
        if d.None? {
          LoadFails(nodes, i);
          return false;
        }
        client := client + [d.value];
      }
      assert nodes[..|nodes|] == nodes;
      namedDevices := client;
      ok := true;
    }

    /** `add_authorized_client`. */
    method AddAuthorizedClient(d: Device, freshState: bool)
      modifies this
      ensures namedDevices == Added(old(namedDevices), d, freshState)
    {
      namedDevices := namedDevices + [d];
      if !freshState {
        LoadOfSave(namedDevices);
        var nodes := SaveState();
        var ok := LoadState(nodes);
      }
    }
  }

  /** The counters of `save_state` agree with what was written. */
  ghost predicate Counts(counts: map<string, nat>, saved: seq<Device>) {
    forall base :: CountOf(saved, base) == if base in counts then counts[base] else 0
  }

  /** After `i` devices: the nodes written, the certificates seen, the names counted. */
  ghost predicate Saved(ds: seq<Device>, i: nat, certs: set<string>, counts: map<string, nat>, nodes: seq<Json>) {
    && i <= |ds| && nodes == WriteDevices(Canon(ds[..i]))
    && (forall c :: c in certs <==> HasCert(Canon(ds[..i]), c))
    && Counts(counts, Canon(ds[..i]))
  }

  lemma SavedStart(ds: seq<Device>)
    ensures Saved(ds, 0, {}, map[], [])
  {
    CountsStart();
    NoCerts();
  }

  lemma SavedEnd(ds: seq<Device>, certs: set<string>, counts: map<string, nat>, nodes: seq<Json>)
    requires Saved(ds, |ds|, certs, counts, nodes)
    ensures nodes == Save(ds)
  {
    assert ds[..|ds|] == ds;
  }

  lemma SavedStep(ds: seq<Device>, i: nat, certs: set<string>, counts: map<string, nat>, nodes: seq<Json>)
    requires i < |ds| && Saved(ds, i, certs, counts, nodes)
    ensures ds[i].cert in certs ==> Saved(ds, i + 1, certs, counts, nodes)
    ensures ds[i].cert !in certs ==>
      var d, base := ds[i], Base(ds[i].name);
      var count := if base in counts then counts[base] else 0;
      Saved(ds, i + 1, certs + {d.cert}, counts[base := count + 1], nodes + [WriteDevice(d.(name := FinalName(base, count)))])
  {
    hide Base, FinalName, CountOf, WriteDevice, HasCert, Counts, Canon;
    var d, saved := ds[i], Canon(ds[..i]);
    assert ds[..i + 1] == ds[..i] + [d];
    CanonStep(ds[..i], d);
    if d.cert !in certs {
      CountsStep(counts, saved, d);
      CertsStep(saved, Renamed(saved, d));
    }
  }

  lemma NoCerts()
    ensures forall c :: !HasCert([], c)
  {
  }

  lemma CountsStart()
    ensures Counts(map[], [])
  {
  }

  lemma CountsStep(counts: map<string, nat>, saved: seq<Device>, d: Device)
    requires Counts(counts, saved)
    ensures var base := Base(d.name);
      var count := if base in counts then counts[base] else 0;
      && d.(name := FinalName(base, count)) == Renamed(saved, d)
      && Counts(counts[base := count + 1], saved + [Renamed(saved, d)])
  {
    hide Base, FinalName;
    var base := Base(d.name);
    var more := saved + [Renamed(saved, d)];
    BaseIsFixed(d.name);
    BaseOfFinal(base, CountOf(saved, base));
    assert more[..|saved|] == saved;
  }

  lemma CertsStep(saved: seq<Device>, d: Device)
    ensures forall c :: HasCert(saved + [d], c) <==> HasCert(saved, c) || d.cert == c
  {
    forall c ensures HasCert(saved + [d], c) <==> HasCert(saved, c) || d.cert == c {
      HasSnoc(saved, d, c);
    }
  }

  lemma {:induction false} LoadFails(nodes: seq<Json>, i: nat)
    requires i < |nodes| && ReadDevice(nodes[i]).None?
    ensures Load(nodes).None?
    decreases |nodes|
  {
    if i < |nodes| - 1 {
      LoadFails(nodes[..|nodes| - 1], i);
    }
  }
}
