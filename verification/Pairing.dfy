/**
 Four-phase pairing (src/nvhttp.cpp `pair`, `getservercert`, `clientchallenge`,
 `serverchallengeresp`, `clientpairingsecret`, `pin`). Cryptography is a record of functions;
 random draws, the clock and the session that `pin` happens to meet first are part of an event.
 */
module Pairing {
  import opened Wrappers
  import opened DeviceStates

  // ----- Data -----

  datatype Crypto = Crypto(
    genKey: (string, string) -> string,
    encrypt: (string, string) -> string,
    decrypt: (string, string) -> string,
    hash: string -> string,
    hexHash: string -> string,
    validCert: string -> bool,
    certSignature: string -> string,
    sign: (string, string) -> string,
    verify: (string, string, string) -> bool,
    serverCert: string,
    serverKey: string)

  datatype Phase = Fresh | GotServerCert | GotChallenge | GotResponse | GotSecret

  datatype Session = Session(
    uid: string,
    cert: string,
    name: string,
    salt: string,
    waiting: bool,
    key: Option<string>,
    serverSecret: string,
    serverChallenge: string,
    clientHash: string,
    phase: Phase)

  datatype Otp = Otp(pin: string, passphrase: string, deviceName: string)

  datatype Server = Server(sessions: map<string, Session>, devices: seq<Device>, otp: Otp, enabled: bool, freshState: bool)

  datatype Args = Args(
    uid: Option<string>,
    phrase: Option<string>,
    deviceName: Option<string>,
    clientCert: Option<string>,
    salt: Option<string>,
    otpAuth: Option<string>,
    clientChallenge: Option<string>,
    serverChallengeResp: Option<string>,
    clientPairingSecret: Option<string>)

  /** Random values a request may draw, the new device's id, and whether the one-time PIN has expired. */
  datatype Draws = Draws(secret: string, challenge: string, junkPin: string, uuid: string, otpExpired: bool)

  datatype Event =
    | PairRequest(args: Args, draws: Draws)
    | PinEntered(pin: string, name: string, first: string)
    | OtpRequested(drawn: string, passphrase: string, deviceName: string)

  datatype Reply =
    | Refused(status: nat)
    | Threw
    | Parked
    | Accepted
    | ServerCertificate(cert: string)
    | ChallengeResponse(bytes: string)
    | PairingSecret(bytes: string)
    | Paired
    | NotPaired

  const VIEW_AND_LIST: Word := 0x0300_0000

  // ----- Handlers -----

  /** Any failure deletes the session: the client has to start again. */
  function FailPair(srv: Server, s: Session): (Server, Reply) {
    (srv.(sessions := srv.sessions - {s.uid}), Refused(400))
  }

  function Put(srv: Server, s: Session): Server {
    srv.(sessions := srv.sessions[s.uid := s])
  }

  function GetServerCert(c: Crypto, srv: Server, s: Session, pin: string): (Server, Reply) {
    if s.phase != Fresh || |s.salt| < 32 then FailPair(srv, s)
    else (Put(srv, s.(phase := GotServerCert, key := Some(c.genKey(s.salt[..32], pin)))), ServerCertificate(c.serverCert))
  }

  function ClientChallenge(c: Crypto, srv: Server, s: Session, challenge: string, draws: Draws): (Server, Reply) {
    if s.phase != GotServerCert || s.key.None? then FailPair(srv, s)
    else
      var hash := c.hash(c.decrypt(s.key.value, challenge) + c.certSignature(c.serverCert) + draws.secret);
      (Put(srv, s.(phase := GotChallenge, serverSecret := draws.secret, serverChallenge := draws.challenge)),
       ChallengeResponse(c.encrypt(s.key.value, hash + draws.challenge)))
  }

  function ServerChallengeResp(c: Crypto, srv: Server, s: Session, response: string): (Server, Reply) {
    if s.phase != GotChallenge || s.key.None? || s.serverSecret == "" then FailPair(srv, s)
    else
      (Put(srv, s.(phase := GotResponse, clientHash := c.decrypt(s.key.value, response))),
       PairingSecret(s.serverSecret + c.sign(c.serverKey, s.serverSecret)))
  }

  /** Both final checks: the hash sent in phase three, and the signature over the secret. */
  predicate Proven(c: Crypto, s: Session, secret: string) {
    && |secret| > 16
    && c.validCert(s.cert)
    && c.hash(s.serverChallenge + c.certSignature(s.cert) + secret[..16]) == s.clientHash
    && c.verify(s.cert, secret[..16], secret[16..])
  }

  function Bracketed(name: string): string {
    seq(|name|, i requires 0 <= i < |name| => if name[i] == '(' then '[' else if name[i] == ')' then ']' else name[i])
  }

  function NewDevice(srv: Server, s: Session, draws: Draws): Device {
    Device(Bracketed(s.name), draws.uuid, s.cert, "", [], [],
      if srv.devices == [] then ALL else VIEW_AND_LIST, true, true, false)
  }

  ghost function ClientPairingSecret(c: Crypto, srv: Server, s: Session, secret: string, draws: Draws): (Server, Reply) {
    if s.phase != GotResponse || |secret| <= 16 || !c.validCert(s.cert) then FailPair(srv, s)
    else
      var rest := srv.(sessions := srv.sessions - {s.uid});
      if Proven(c, s, secret) then
        (rest.(devices := Added(srv.devices, NewDevice(srv, s, draws), srv.freshState)), Paired)
      else (rest, NotPaired)
  }

  // ----- Requests -----

  const NO_OTP := Otp("", "", "")

  /** A request with a one-time PIN: a wrong one still gets a certificate, under a key nobody knows. */
  ghost function WithOtp(c: Crypto, srv: Server, s: Session, auth: string, draws: Draws): (Server, Reply) {
    if srv.otp.pin == "" || draws.otpExpired then GetServerCert(c, srv.(otp := NO_OTP), s, draws.junkPin)
    else if c.hexHash(srv.otp.pin + s.salt + srv.otp.passphrase) == auth then
      var named := if srv.otp.deviceName == "" then s else s.(name := srv.otp.deviceName);
      GetServerCert(c, srv.(otp := NO_OTP), named, srv.otp.pin)
    else GetServerCert(c, srv, s, draws.junkPin)
  }

  /** Phase one. An existing session of the same id is kept; only its salt is overwritten. */
  ghost function Begin(c: Crypto, srv: Server, uid: string, args: Args, draws: Draws): (Server, Reply) {
    if args.deviceName.None? || args.clientCert.None? then (srv, Threw)
    else
      var name := if args.deviceName.value == "roth" then "Legacy Moonlight Client" else args.deviceName.value;
      var made := Session(uid, args.clientCert.value, name, "", false, None, "", "", "", Fresh);
      var s := if uid in srv.sessions then srv.sessions[uid] else made;
      if args.salt.None? then (Put(srv, s), Threw)
      else
        var salted := s.(salt := args.salt.value);
        if args.otpAuth.Some? then WithOtp(c, Put(srv, salted), salted, args.otpAuth.value, draws)
        else (Put(srv, salted.(waiting := true)), Parked)
  }

  ghost function OnPair(c: Crypto, srv: Server, args: Args, draws: Draws): (Server, Reply) {
    if !srv.enabled then (srv, Refused(403))
    else if args.uid.None? then (srv, Refused(400))
    else
      var uid := args.uid.value;
      if args.phrase == Some("getservercert") then Begin(c, srv, uid, args, draws)
      else if args.phrase == Some("pairchallenge") then (srv, Accepted)
      else if uid !in srv.sessions then (srv, Refused(400))
      else
        var s := srv.sessions[uid];
        if args.clientChallenge.Some? then ClientChallenge(c, srv, s, args.clientChallenge.value, draws)
        else if args.serverChallengeResp.Some? then ServerChallengeResp(c, srv, s, args.serverChallengeResp.value)
        else if args.clientPairingSecret.Some? then ClientPairingSecret(c, srv, s, args.clientPairingSecret.value, draws)
        else (srv, Refused(404))
  }

  predicate IsPin(pin: string) {
    |pin| == 4 && forall i :: 0 <= i < 4 ==> '0' <= pin[i] <= '9'
  }

  /** The PIN goes to the session `pin` meets first; its parked request is answered. */
  function OnPin(c: Crypto, srv: Server, pin: string, name: string, first: string): (Server, Reply) {
    if first !in srv.sessions || !IsPin(pin) then (srv, Refused(400))
    else
      var s := srv.sessions[first];
      var (after, reply) := GetServerCert(c, srv, s, pin);
      if first in after.sessions then
        var t := after.sessions[first];
        (Put(after, t.(name := if name == "" then t.name else name, waiting := false)), reply)
      else (after, reply)
  }

  /** A one-time PIN is drawn when the passphrase is long enough; it replaces the one before. */
  function OnOtpRequest(srv: Server, drawn: string, passphrase: string, deviceName: string): (Server, Reply) {
    if |passphrase| < 4 then (srv, Refused(400))
    else (srv.(otp := Otp(drawn, passphrase, deviceName)), Accepted)
  }

  ghost function Step(c: Crypto, srv: Server, e: Event): (Server, Reply) {
    match e
    case OtpRequested(drawn, passphrase, deviceName) => OnOtpRequest(srv, drawn, passphrase, deviceName)
    case PairRequest(args, draws) => OnPair(c, srv, args, draws)
    case PinEntered(pin, name, first) => OnPin(c, srv, pin, name, first)
  }

  ghost function Run(c: Crypto, srv: Server, events: seq<Event>): Server {
    if events == [] then srv
    else Step(c, Run(c, srv, events[..|events| - 1]), events[|events| - 1]).0
  }

  /** Draws are sixteen bytes each. */
  predicate DrawsWide(e: Event) {
    e.PairRequest? ==> |e.draws.secret| == 16 && |e.draws.challenge| == 16
  }

  // ----- What a session holds -----

  /** Key, secrets and hash are set exactly as the phase implies. */
  predicate FieldsMatch(s: Session) {
    && (s.key.Some? <==> s.phase != Fresh)
    && |s.serverSecret| == (if s.phase in {Fresh, GotServerCert} then 0 else 16)
    && |s.serverChallenge| == |s.serverSecret|
    && (s.phase != GotResponse ==> s.clientHash == "")
    && s.phase != GotSecret
  }

  /** Sessions are filed under their own id. */
  ghost predicate Keyed(srv: Server) {
    forall u :: u in srv.sessions ==> srv.sessions[u].uid == u
  }

  ghost predicate Inv(srv: Server) {
    Keyed(srv) && forall u :: u in srv.sessions ==> FieldsMatch(srv.sessions[u])
  }

  // ----- How a step may move a session -----

  function SessionOf(srv: Server, u: string): Option<Session> {
    if u in srv.sessions then Some(srv.sessions[u]) else None
  }

  /** Everything the protocol rests on is the same; only name, salt and the parked request may differ. */
  predicate Keeps(a: Session, b: Session) {
    b == a.(name := b.name, salt := b.salt, waiting := b.waiting)
  }

  predicate Blank(s: Session) {
    s.phase == Fresh && s.key == None && s.serverSecret == "" && s.serverChallenge == "" && s.clientHash == ""
  }

  predicate OtpProven(c: Crypto, srv: Server, salt: string, args: Args, draws: Draws) {
    && args.otpAuth.Some? && srv.otp.pin != "" && !draws.otpExpired
    && c.hexHash(srv.otp.pin + salt + srv.otp.passphrase) == args.otpAuth.value
  }

  /** The PIN a key is made from: four digits entered, the one-time PIN of a client that knows the passphrase, or noise. */
  predicate PinFor(c: Crypto, srv: Server, e: Event, salt: string, pin: string) {
    match e
    case OtpRequested(_, _, _) => false
    case PinEntered(p, _, _) => pin == p && IsPin(p)
    case PairRequest(args, draws) => pin == if OtpProven(c, srv, salt, args, draws) then srv.otp.pin else draws.junkPin
  }

  ghost predicate MovesToCert(c: Crypto, srv: Server, e: Event, a: Option<Session>, b: Session) {
    && b.phase == GotServerCert && (a.Some? ==> a.value.phase == Fresh)
    && |b.salt| >= 32 && (exists pin :: PinFor(c, srv, e, b.salt, pin) && b.key == Some(c.genKey(b.salt[..32], pin)))
    && (a.Some? ==> Keeps(a.value.(phase := b.phase, key := b.key), b))
    && (a.None? ==> Blank(b.(phase := Fresh, key := None)))
  }

  predicate MovesToChallenge(c: Crypto, e: Event, a: Option<Session>, b: Session) {
    && e.PairRequest? && a.Some? && a.value.phase == GotServerCert && a.value.key.Some?
    && b == a.value.(phase := GotChallenge, serverSecret := e.draws.secret, serverChallenge := e.draws.challenge)
  }

  predicate MovesToResponse(c: Crypto, e: Event, a: Option<Session>, b: Session) {
    && e.PairRequest? && e.args.serverChallengeResp.Some?
    && a.Some? && a.value.phase == GotChallenge && a.value.key.Some?
    && b == a.value.(phase := GotResponse, clientHash := c.decrypt(a.value.key.value, e.args.serverChallengeResp.value))
  }

  ghost predicate Moves(c: Crypto, srv: Server, e: Event, a: Option<Session>, b: Option<Session>) {
    b.Some? ==>
      || (a.Some? && Keeps(a.value, b.value))
      || (a.None? && Blank(b.value))
      || MovesToCert(c, srv, e, a, b.value)
      || MovesToChallenge(c, e, a, b.value)
      || MovesToResponse(c, e, a, b.value)
  }

  /** The session an event is about. */
  function Target(e: Event): Option<string> {
    match e
    case PairRequest(args, _) => args.uid
    case PinEntered(_, _, first) => Some(first)
    case OtpRequested(_, _, _) => None
  }

  ghost predicate Others(before: Server, after: Server, uid: string) {
    forall u :: u != uid ==> SessionOf(before, u) == SessionOf(after, u)
  }

  /** What a handler may do: touch its own session, by a move, and no other. */
  ghost predicate Local(c: Crypto, srv: Server, e: Event, uid: string, after: Server) {
    && Others(srv, after, uid)
    && Moves(c, srv, e, SessionOf(srv, uid), SessionOf(after, uid))
    && (uid in after.sessions ==> after.sessions[uid].uid == uid)
  }

  lemma GetServerCertMoves(c: Crypto, srv: Server, now: Server, e: Event, s: Session, pin: string)
    requires Others(srv, now, s.uid) && PinFor(c, srv, e, s.salt, pin)
    requires match SessionOf(srv, s.uid) case Some(a) => Keeps(a, s) case None => Blank(s)
    ensures Local(c, srv, e, s.uid, GetServerCert(c, now, s, pin).0)
  {
  }

  lemma OtpMoves(c: Crypto, srv: Server, now: Server, s: Session, args: Args, draws: Draws)
    requires Others(srv, now, s.uid) && now.otp == srv.otp && args.otpAuth.Some?
    requires match SessionOf(srv, s.uid) case Some(a) => Keeps(a, s) case None => Blank(s)
    ensures Local(c, srv, PairRequest(args, draws), s.uid, WithOtp(c, now, s, args.otpAuth.value, draws).0)
  {
    hide Local, Moves, GetServerCert;
    var e := PairRequest(args, draws);
    if srv.otp.pin == "" || draws.otpExpired {
      GetServerCertMoves(c, srv, now.(otp := NO_OTP), e, s, draws.junkPin);
    } else if OtpProven(c, srv, s.salt, args, draws) {
      var named := if srv.otp.deviceName == "" then s else s.(name := srv.otp.deviceName);
      GetServerCertMoves(c, srv, now.(otp := NO_OTP), e, named, srv.otp.pin);
    } else {
      GetServerCertMoves(c, srv, now, e, s, draws.junkPin);
    }
  }

  lemma BeginMoves(c: Crypto, srv: Server, uid: string, args: Args, draws: Draws)
    requires Keyed(srv) && args.uid == Some(uid)
    ensures Local(c, srv, PairRequest(args, draws), uid, Begin(c, srv, uid, args, draws).0)
  {
    hide WithOtp;
    if args.deviceName.Some? && args.clientCert.Some? && args.salt.Some? && args.otpAuth.Some? {
      var name := if args.deviceName.value == "roth" then "Legacy Moonlight Client" else args.deviceName.value;
      var made := Session(uid, args.clientCert.value, name, "", false, None, "", "", "", Fresh);
      var s := (if uid in srv.sessions then srv.sessions[uid] else made).(salt := args.salt.value);
      OtpMoves(c, srv, Put(srv, s), s, args, draws);
    }
  }

  lemma PhaseMoves(c: Crypto, srv: Server, s: Session, args: Args, draws: Draws)
    requires SessionOf(srv, s.uid) == Some(s)
    ensures args.clientChallenge.Some? ==>
      Local(c, srv, PairRequest(args, draws), s.uid, ClientChallenge(c, srv, s, args.clientChallenge.value, draws).0)
    ensures args.serverChallengeResp.Some? ==>
      Local(c, srv, PairRequest(args, draws), s.uid, ServerChallengeResp(c, srv, s, args.serverChallengeResp.value).0)
    ensures args.clientPairingSecret.Some? ==>
      Local(c, srv, PairRequest(args, draws), s.uid, ClientPairingSecret(c, srv, s, args.clientPairingSecret.value, draws).0)
  {
  }

  lemma PinMoves(c: Crypto, srv: Server, pin: string, name: string, first: string)
    requires Keyed(srv)
    ensures Local(c, srv, PinEntered(pin, name, first), first, OnPin(c, srv, pin, name, first).0)
  {
    if first in srv.sessions && IsPin(pin) {
      GetServerCertMoves(c, srv, srv, PinEntered(pin, name, first), srv.sessions[first], pin);
    }
  }

  /** Every step moves at most the session it is about, and only along the protocol. */
  lemma StepIsLocal(c: Crypto, srv: Server, e: Event)
    requires Keyed(srv)
    ensures Target(e).Some? ==> Local(c, srv, e, Target(e).value, Step(c, srv, e).0)
    ensures Target(e).None? ==> Step(c, srv, e).0 == srv.(otp := Step(c, srv, e).0.otp)
  {
    hide Local, Begin, ClientChallenge, ServerChallengeResp, ClientPairingSecret, OnPin;
    if Target(e).Some? {
      var uid := Target(e).value;
      StayingIsLocal(c, srv, e, uid);
      match e
      case PairRequest(args, draws) =>
        BeginMoves(c, srv, uid, args, draws);
        if uid in srv.sessions {
          PhaseMoves(c, srv, srv.sessions[uid], args, draws);
        }
      case PinEntered(pin, name, first) =>
        PinMoves(c, srv, pin, name, first);
    }
  }

  lemma StayingIsLocal(c: Crypto, srv: Server, e: Event, uid: string)
    requires Keyed(srv)
    ensures Local(c, srv, e, uid, srv)
  {
  }

  lemma MovesKeepFields(c: Crypto, srv: Server, e: Event, a: Option<Session>, b: Session)
    requires Moves(c, srv, e, a, Some(b)) && DrawsWide(e) && (a.Some? ==> FieldsMatch(a.value))
    ensures FieldsMatch(b)
  {
  }

  lemma StepKeepsInv(c: Crypto, srv: Server, e: Event)
    requires Inv(srv) && DrawsWide(e)
    ensures Inv(Step(c, srv, e).0)
  {
    hide Step, Moves, FieldsMatch;
    StepIsLocal(c, srv, e);
    var after := Step(c, srv, e).0;
    forall u | u in after.sessions ensures after.sessions[u].uid == u && FieldsMatch(after.sessions[u]) {
      assert SessionOf(after, u) == Some(after.sessions[u]);
      if Target(e) == Some(u) {
        MovesKeepFields(c, srv, e, SessionOf(srv, u), after.sessions[u]);
      } else {
        assert SessionOf(srv, u) == SessionOf(after, u);
      }
    }
  }

  /** In every reachable state every session's fields are those of its phase. */
  lemma {:induction false} RunKeepsInv(c: Crypto, srv: Server, events: seq<Event>)
    requires Inv(srv) && forall i :: 0 <= i < |events| ==> DrawsWide(events[i])
    ensures Inv(Run(c, srv, events))
    decreases |events|
  {
    hide Step, Inv;
    if events != [] {
      RunKeepsInv(c, srv, events[..|events| - 1]);
      StepKeepsInv(c, Run(c, srv, events[..|events| - 1]), events[|events| - 1]);
    }
  }

  // ----- Soundness -----

  /** The last request of a session that has come through the other phases, with both checks passed. */
  predicate Authorizes(c: Crypto, srv: Server, e: Event) {
    && e.PairRequest? && srv.enabled && e.args.uid.Some? && e.args.uid.value in srv.sessions
    && e.args.phrase != Some("getservercert") && e.args.phrase != Some("pairchallenge")
    && e.args.clientChallenge.None? && e.args.serverChallengeResp.None? && e.args.clientPairingSecret.Some?
    && srv.sessions[e.args.uid.value].phase == GotResponse
    && Proven(c, srv.sessions[e.args.uid.value], e.args.clientPairingSecret.value)
  }

  /** Nothing else changes the list of devices. */
  lemma DevicesChangeIff(c: Crypto, srv: Server, e: Event)
    ensures var after := Step(c, srv, e).0;
      after.devices == if Authorizes(c, srv, e)
        then Added(srv.devices, NewDevice(srv, srv.sessions[e.args.uid.value], e.draws), srv.freshState)
        else srv.devices
    ensures Authorizes(c, srv, e) && Keyed(srv) ==> e.args.uid.value !in Step(c, srv, e).0.sessions
  {
    hide Added, NewDevice;
  }

  // ----- What a new device may do -----

  /** The name with round brackets made square. */
  predicate Squared(given: string, name: string) {
    && |given| == |name|
    && forall i :: 0 <= i < |name| ==>
      given[i] == if name[i] == '(' then '[' else if name[i] == ')' then ']' else name[i]
  }

  /** Certificate and name of the session; the owner's first device may do everything, a later one may view and list. */
  predicate Newcomer(d: Device, s: Session, first: bool, uuid: string) {
    && d.cert == s.cert && d.uuid == uuid
    && d.perm == (if first then 0x071F_1F00 else 0x0300_0000)
    && d.legacyOrdering && d.clientCommands && !d.virtualDisplay
    && d.displayMode == "" && d.doCmds == [] && d.undoCmds == []
  }

  /**
   After the last request of a pairing the new device stands behind the others, with full
   permissions exactly when the list was empty; when the state is saved, with its name numbered
   if need be, and not at all when its certificate was known.
   */
  lemma AuthorizedDevice(c: Crypto, srv: Server, e: Event)
    requires Authorizes(c, srv, e)
    ensures var s, known, listed := srv.sessions[e.args.uid.value], srv.devices, Step(c, srv, e).0.devices;
      && (srv.freshState ==>
        && |listed| == |known| + 1 && listed[..|known|] == known
        && Newcomer(listed[|known|], s, known == [], e.draws.uuid) && Squared(listed[|known|].name, s.name))
      && (!srv.freshState && HasCert(known, s.cert) ==> listed == MaskedAll(Canon(known)))
      && (!srv.freshState && !HasCert(known, s.cert) ==>
        var n := |Canon(known)|;
        && |listed| == n + 1 && listed[..n] == MaskedAll(Canon(known))
        && Newcomer(listed[n], s, known == [], e.draws.uuid)
        && exists given: string :: Squared(given, s.name) && given <= listed[n].name)
  {
    var s := srv.sessions[e.args.uid.value];
    var d := NewDevice(srv, s, e.draws);
    DevicesChangeIff(c, srv, e);
    AddOne(srv.devices, d);
    assert Newcomer(d, s, srv.devices == [], e.draws.uuid) && Squared(d.name, s.name);
    RenamedNewcomer(Canon(srv.devices), d);
    var m := Masked(Renamed(Canon(srv.devices), d));
    assert Squared(d.name, s.name) && d.name <= m.name;
    hide Step, Canon, MaskedAll, Added, Squared, NewDevice, Authorizes, Masked, Renamed, HasCert;
  }

  lemma RenamedNewcomer(before: seq<Device>, d: Device)
    requires d.perm == 0x071F_1F00 || d.perm == 0x0300_0000
    requires forall i :: 0 <= i < |d.name| ==> d.name[i] != '('
    ensures var m := Masked(Renamed(before, d));
      d.name <= m.name && m == d.(name := m.name)
  {
    AndSelf(ALL);
    ViewAndListKnown();
    BaseIs(d.name, |d.name|);
    FinalBegins(Base(d.name), CountOf(before, Base(d.name)));
    hide And, Base, CountOf, FinalName;
    assert d.name[..|d.name|] == d.name;
  }

  ghost function StateAt(c: Crypto, srv: Server, events: seq<Event>, m: nat): Server
    requires m <= |events|
  {
    Run(c, srv, events[..m])
  }

  lemma NextState(c: Crypto, srv: Server, events: seq<Event>, m: nat)
    requires m < |events|
    ensures StateAt(c, srv, events, m + 1) == Step(c, StateAt(c, srv, events, m), events[m]).0
  {
    assert events[..m + 1][..m] == events[..m];
  }

  ghost predicate InvAlong(c: Crypto, srv: Server, events: seq<Event>) {
    forall m :: 0 <= m <= |events| ==> Inv(StateAt(c, srv, events, m))
  }

  lemma AllStatesInv(c: Crypto, srv: Server, events: seq<Event>)
    requires Inv(srv) && forall i :: 0 <= i < |events| ==> DrawsWide(events[i])
    ensures InvAlong(c, srv, events)
  {
    forall m | 0 <= m <= |events| ensures Inv(StateAt(c, srv, events, m)) {
      RunKeepsInv(c, srv, events[..m]);
    }
  }

  /** From state `i` to state `j` the session lives and keeps everything the protocol rests on. */
  ghost predicate Stays(c: Crypto, srv: Server, events: seq<Event>, u: string, i: nat, j: nat)
    requires i <= j <= |events|
  {
    forall m :: i <= m <= j ==>
      && u in StateAt(c, srv, events, m).sessions
      && u in StateAt(c, srv, events, i).sessions
      && Keeps(StateAt(c, srv, events, i).sessions[u], StateAt(c, srv, events, m).sessions[u])
  }

  /** Step `i` moved the session into its phase. */
  ghost predicate Entered(c: Crypto, srv: Server, events: seq<Event>, u: string, i: nat)
    requires i < |events|
  {
    var before, after := SessionOf(StateAt(c, srv, events, i), u), SessionOf(StateAt(c, srv, events, i + 1), u);
    && Target(events[i]) == Some(u) && after.Some?
    && (|| MovesToCert(c, StateAt(c, srv, events, i), events[i], before, after.value)
        || MovesToChallenge(c, events[i], before, after.value)
        || MovesToResponse(c, events[i], before, after.value))
  }

  /** A session past the start entered its phase by some step and has kept its secrets since. */
  lemma {:induction false} EnteredBefore(c: Crypto, srv: Server, events: seq<Event>, u: string, n: nat) returns (i: nat)
    requires InvAlong(c, srv, events) && srv.sessions == map[] && n <= |events|
    requires u in StateAt(c, srv, events, n).sessions && StateAt(c, srv, events, n).sessions[u].phase != Fresh
    ensures i < n && Entered(c, srv, events, u, i) && Stays(c, srv, events, u, i + 1, n)
    decreases n
  {
    hide Moves, MovesToCert, MovesToChallenge, MovesToResponse, Step, Run;
    StartsEmpty(c, srv, events);
    var before, after := StateAt(c, srv, events, n - 1), StateAt(c, srv, events, n);
    if u in before.sessions && Keeps(before.sessions[u], after.sessions[u]) {
      i := EnteredBefore(c, srv, events, u, n - 1);
    } else {
      hide InvAlong, StateAt;
      LastStepEntered(c, srv, events, u, n - 1);
      i := n - 1;
    }
  }

  lemma StartsEmpty(c: Crypto, srv: Server, events: seq<Event>)
    ensures StateAt(c, srv, events, 0) == srv
  {
    assert events[..0] == [];
  }

  lemma LastStepEntered(c: Crypto, srv: Server, events: seq<Event>, u: string, i: nat)
    requires i < |events| && Inv(StateAt(c, srv, events, i))
    requires u in StateAt(c, srv, events, i + 1).sessions && StateAt(c, srv, events, i + 1).sessions[u].phase != Fresh
    requires u in StateAt(c, srv, events, i).sessions ==>
      !Keeps(StateAt(c, srv, events, i).sessions[u], StateAt(c, srv, events, i + 1).sessions[u])
    ensures Entered(c, srv, events, u, i)
  {
    hide Moves, MovesToCert, MovesToChallenge, MovesToResponse, Step;
    NextState(c, srv, events, i);
    var before, after := StateAt(c, srv, events, i), StateAt(c, srv, events, i + 1);
    hide StateAt;
    StepIsLocal(c, before, events[i]);
    assert SessionOf(before, u) != SessionOf(after, u);
    MovedOrEntered(c, before, events[i], SessionOf(before, u), after.sessions[u]);
  }

  lemma MovedOrEntered(c: Crypto, srv: Server, e: Event, a: Option<Session>, b: Session)
    requires Moves(c, srv, e, a, Some(b)) && b.phase != Fresh
    ensures || (a.Some? && Keeps(a.value, b)) || MovesToCert(c, srv, e, a, b)
            || MovesToChallenge(c, e, a, b) || MovesToResponse(c, e, a, b)
  {
  }

  /**
   The story behind an authorised device: in order, and with nothing else happening to the
   session in between, its key was made from a PIN, it was challenged, it answered; and the
   hash and the signature it proved itself with rest on exactly those values.
   */
  ghost predicate PairedProperly(c: Crypto, srv: Server, events: seq<Event>, n: nat, u: string, i: nat, j: nat, k: nat,
    salt: string, pin: string)
    requires n < |events|
  {
    && i < j < k < n
    && Entered(c, srv, events, u, i) && Stays(c, srv, events, u, i + 1, j)
    && Entered(c, srv, events, u, j) && Stays(c, srv, events, u, j + 1, k)
    && Entered(c, srv, events, u, k) && Stays(c, srv, events, u, k + 1, n)
    && |salt| >= 32 && PinFor(c, StateAt(c, srv, events, i), events[i], salt, pin)
    && events[j].PairRequest? && events[k].PairRequest? && events[n].PairRequest?
    && events[k].args.serverChallengeResp.Some? && events[n].args.clientPairingSecret.Some?
    && u in StateAt(c, srv, events, n).sessions
    && var cert := StateAt(c, srv, events, n).sessions[u].cert;
      var secret := events[n].args.clientPairingSecret.value;
      && |secret| > 16 && c.validCert(cert)
      && c.hash(events[j].draws.challenge + c.certSignature(cert) + secret[..16])
         == c.decrypt(c.genKey(salt[..32], pin), events[k].args.serverChallengeResp.value)
      && c.verify(cert, secret[..16], secret[16..])
  }

  /** Over every run: the list of devices changes only for a session with such a story. */
  lemma PairingIsSound(c: Crypto, srv: Server, events: seq<Event>, n: nat)
    returns (u: string, i: nat, j: nat, k: nat, salt: string, pin: string)
    requires srv.sessions == map[] && (forall i :: 0 <= i < |events| ==> DrawsWide(events[i])) && n < |events|
    requires StateAt(c, srv, events, n + 1).devices != StateAt(c, srv, events, n).devices
    ensures Authorizes(c, StateAt(c, srv, events, n), events[n]) && Target(events[n]) == Some(u)
    ensures PairedProperly(c, srv, events, n, u, i, j, k, salt, pin)
  {
    hide Step;
    AllStatesInv(c, srv, events);
    NextState(c, srv, events, n);
    DevicesChangeIff(c, StateAt(c, srv, events, n), events[n]);
    u := events[n].args.uid.value;
    hide Run, StateAt, Added, NewDevice;
    k := EnteredBefore(c, srv, events, u, n);
    j := EnteredBefore(c, srv, events, u, k);
    i := EnteredBefore(c, srv, events, u, j);
    salt := StateAt(c, srv, events, i + 1).sessions[u].salt;
    pin :| PinFor(c, StateAt(c, srv, events, i), events[i], salt, pin)
      && StateAt(c, srv, events, i + 1).sessions[u].key == Some(c.genKey(salt[..32], pin));
  }

  function OwnName(deviceName: string): string {
    if deviceName == "roth" then "Legacy Moonlight Client" else deviceName
  }

  /** A session carries the name its client gave, or the one that goes with the one-time PIN. */
  lemma NameOfClient(c: Crypto, srv: Server, args: Args, draws: Draws, u: string)
    requires Keyed(srv) && args.uid == Some(u) && u !in srv.sessions
    requires u in Step(c, srv, PairRequest(args, draws)).0.sessions
    ensures var after := Step(c, srv, PairRequest(args, draws)).0.sessions[u];
      && args.clientCert == Some(after.cert) && args.deviceName.Some?
      && (after.name == OwnName(args.deviceName.value) || (args.otpAuth.Some? && after.name == srv.otp.deviceName != ""))
  {
    hide Added, NewDevice, Proven, ClientChallenge, ServerChallengeResp, ClientPairingSecret;
  }

  /** Whoever enters the PIN may give another name; the parked request is answered. */
  lemma NameWithPin(c: Crypto, srv: Server, pin: string, name: string, u: string)
    requires Keyed(srv) && Step(c, srv, PinEntered(pin, name, u)).1.ServerCertificate?
    ensures u in srv.sessions && u in Step(c, srv, PinEntered(pin, name, u)).0.sessions
    ensures var before, after := srv.sessions[u], Step(c, srv, PinEntered(pin, name, u)).0.sessions[u];
      after.cert == before.cert && !after.waiting && after.name == if name == "" then before.name else name
  {
    hide OnPair;
  }

  /** Nothing happens while pairing is disabled, without an id, or for a PIN that is not four digits. */
  lemma RefusedUnchanged(c: Crypto, srv: Server, args: Args, draws: Draws, pin: string, name: string, u: string)
    ensures !srv.enabled || args.uid.None? ==> OnPair(c, srv, args, draws).0 == srv
    ensures |pin| != 4 || (exists i :: 0 <= i < |pin| && !('0' <= pin[i] <= '9')) ==> OnPin(c, srv, pin, name, u).0 == srv
  {
    hide Begin, ClientChallenge, ServerChallengeResp, ClientPairingSecret, GetServerCert;
  }

  /** A first request without a one-time PIN is parked until the PIN is entered. */
  lemma WaitsForPin(c: Crypto, srv: Server, args: Args, draws: Draws, u: string)
    requires Keyed(srv) && srv.enabled && args.uid == Some(u) && args.phrase == Some("getservercert") && args.otpAuth == None
    requires args.deviceName.Some? && args.clientCert.Some? && args.salt.Some?
    ensures var (after, reply) := Step(c, srv, PairRequest(args, draws));
      reply == Parked && u in after.sessions && after.sessions[u].waiting && after.sessions[u].salt == args.salt.value
  {
    hide WithOtp, ClientChallenge, ServerChallengeResp, ClientPairingSecret, GetServerCert;
  }

  // ----- Out of order, or failed -----

  /** The phase handler an event reaches on an existing session, named by the phase it leads to. */
  function Calls(srv: Server, e: Event): Option<Phase> {
    if Target(e).None? || Target(e).value !in srv.sessions then None
    else
      match e
      case OtpRequested(_, _, _) => None
      case PinEntered(pin, _, _) => if IsPin(pin) then Some(GotServerCert) else None
      case PairRequest(args, _) =>
        if !srv.enabled || args.phrase == Some("pairchallenge") then None
        else if args.phrase == Some("getservercert") then
          if args.deviceName.Some? && args.clientCert.Some? && args.salt.Some? && args.otpAuth.Some? then Some(GotServerCert)
          else None
        else if args.clientChallenge.Some? then Some(GotChallenge)
        else if args.serverChallengeResp.Some? then Some(GotResponse)
        else if args.clientPairingSecret.Some? then Some(GotSecret)
        else None
  }

  function Before(p: Phase): Phase {
    match p
    case GotSecret => GotResponse
    case GotResponse => GotChallenge
    case GotChallenge => GotServerCert
    case _ => Fresh
  }

  function SaltFor(srv: Server, e: Event): string
    requires Calls(srv, e).Some?
  {
    if e.PairRequest? && e.args.phrase == Some("getservercert") then e.args.salt.value else srv.sessions[Target(e).value].salt
  }

  lemma OtpSurvives(c: Crypto, srv: Server, uid: string, args: Args, draws: Draws)
    requires Inv(srv) && uid in srv.sessions
    requires args.deviceName.Some? && args.clientCert.Some? && args.salt.Some? && args.otpAuth.Some?
    ensures uid in Begin(c, srv, uid, args, draws).0.sessions <==> srv.sessions[uid].phase == Fresh && |args.salt.value| >= 32
  {
    assert FieldsMatch(srv.sessions[uid]);
  }

  /**
   A session outlives a handler exactly when the handler was called in order, the salt was long
   enough and the protocol was not over. Every other call deletes it.
   */
  lemma SurvivesCallIff(c: Crypto, srv: Server, e: Event)
    requires Inv(srv) && Calls(srv, e).Some?
    ensures var p := Calls(srv, e).value;
      var u := Target(e).value;
      u in Step(c, srv, e).0.sessions
      <==> srv.sessions[u].phase == Before(p) && p != GotSecret && (p == GotServerCert ==> |SaltFor(srv, e)| >= 32)
  {
    hide Added, NewDevice, Proven, Begin;
    assert FieldsMatch(srv.sessions[Target(e).value]);
    if e.PairRequest? && e.args.phrase == Some("getservercert") {
      OtpSurvives(c, srv, Target(e).value, e.args, e.draws);
    }
  }

  // ----- Completeness -----

  /** A client that follows the protocol, and the PIN its user reads out. */
  datatype Client = Client(uid: string, name: string, cert: string, privateKey: string, salt: string, pin: string,
    challenge: string, secret: string)

  /** What pairing needs of the cryptography: decryption undoes encryption of whole blocks, hashes are 32 bytes, signatures verify. */
  ghost predicate Laws(c: Crypto, cl: Client) {
    && (forall k, m :: |m| % 16 == 0 ==> c.decrypt(k, c.encrypt(k, m)) == m)
    && (forall x :: |c.hash(x)| == 32)
    && (forall m :: c.verify(cl.cert, m, c.sign(cl.privateKey, m)))
    && (forall m :: |c.sign(cl.privateKey, m)| > 0)
  }

  ghost predicate Honest(c: Crypto, cl: Client) {
    Laws(c, cl) && c.validCert(cl.cert) && |cl.salt| >= 32 && IsPin(cl.pin) && |cl.secret| == 16 && |cl.challenge| % 16 == 0
  }

  function KeyOf(c: Crypto, cl: Client): string
    requires |cl.salt| >= 32
  {
    c.genKey(cl.salt[..32], cl.pin)
  }

  const NO_ARGS := Args(None, None, None, None, None, None, None, None, None)

  function AskCert(cl: Client, draws: Draws): Event {
    PairRequest(NO_ARGS.(uid := Some(cl.uid), phrase := Some("getservercert"), deviceName := Some(cl.name),
      clientCert := Some(cl.cert), salt := Some(cl.salt)), draws)
  }

  function SendChallenge(c: Crypto, cl: Client, draws: Draws): Event
    requires |cl.salt| >= 32
  {
    PairRequest(NO_ARGS.(uid := Some(cl.uid), clientChallenge := Some(c.encrypt(KeyOf(c, cl), cl.challenge))), draws)
  }

  /** The client reads the server's challenge out of the answer to its own. */
  function SendResponse(c: Crypto, cl: Client, answer: Reply, draws: Draws): Event
    requires |cl.salt| >= 32
  {
    var plain := if answer.ChallengeResponse? then c.decrypt(KeyOf(c, cl), answer.bytes) else "";
    var challenge := if |plain| >= 32 then plain[32..] else "";
    PairRequest(NO_ARGS.(uid := Some(cl.uid), serverChallengeResp :=
      Some(c.encrypt(KeyOf(c, cl), c.hash(challenge + c.certSignature(cl.cert) + cl.secret)))), draws)
  }

  function SendSecret(c: Crypto, cl: Client, draws: Draws): Event {
    PairRequest(NO_ARGS.(uid := Some(cl.uid), clientPairingSecret := Some(cl.secret + c.sign(cl.privateKey, cl.secret))), draws)
  }

  /** Requests of other clients, and PINs that reach other sessions. */
  ghost predicate Quiet(events: seq<Event>, uid: string) {
    forall i :: 0 <= i < |events| ==> Target(events[i]) != Some(uid)
  }

  /** Other clients cannot disturb a session. */
  lemma {:induction false} QuietKeeps(c: Crypto, srv: Server, events: seq<Event>, uid: string)
    requires Keyed(srv) && Quiet(events, uid)
    ensures Keyed(Run(c, srv, events)) && SessionOf(Run(c, srv, events), uid) == SessionOf(srv, uid)
    ensures Run(c, srv, events).enabled == srv.enabled
    decreases |events|
  {
    hide Step, Moves;
    if events != [] {
      var n := |events| - 1;
      QuietKeeps(c, srv, events[..n], uid);
      var before := Run(c, srv, events[..n]);
      StepIsLocal(c, before, events[n]);
      StepKeepsSetting(c, before, events[n]);
      StepKeepsKeyed(c, before, events[n]);
    }
  }

  lemma StepKeepsSetting(c: Crypto, srv: Server, e: Event)
    ensures Step(c, srv, e).0.enabled == srv.enabled
  {
    hide Added, NewDevice, Proven;
  }

  lemma StepKeepsKeyed(c: Crypto, srv: Server, e: Event)
    requires Keyed(srv)
    ensures Keyed(Step(c, srv, e).0)
  {
    hide Step, Moves;
    StepIsLocal(c, srv, e);
    var after := Step(c, srv, e).0;
    forall u | u in after.sessions ensures after.sessions[u].uid == u {
      assert Target(e) != Some(u) ==> SessionOf(srv, u) == SessionOf(after, u);
    }
  }

  /** One request of the client after others have been busy. */
  ghost function Turn(c: Crypto, srv: Server, others: seq<Event>, e: Event): (Server, Reply) {
    Step(c, Run(c, srv, others), e)
  }

  /** What the client's session looks like after each of its turns. */
  ghost predicate Holding(c: Crypto, srv: Server, cl: Client, phase: Phase, draws: Draws)
    requires |cl.salt| >= 32
  {
    && Keyed(srv) && srv.enabled && cl.uid in srv.sessions
    && var s := srv.sessions[cl.uid];
      && s.phase == phase && s.cert == cl.cert
      && (if phase == Fresh then Blank(s) && s.salt == cl.salt else s.key == Some(KeyOf(c, cl)))
      && (phase in {GotChallenge, GotResponse} ==> s.serverSecret == draws.secret && s.serverChallenge == draws.challenge)
      && (phase == GotResponse ==> s.clientHash == c.hash(draws.challenge + c.certSignature(cl.cert) + cl.secret))
  }

  lemma HoldingThrough(c: Crypto, srv: Server, cl: Client, phase: Phase, draws: Draws, others: seq<Event>)
    requires |cl.salt| >= 32 && Holding(c, srv, cl, phase, draws) && Quiet(others, cl.uid)
    ensures Holding(c, Run(c, srv, others), cl, phase, draws)
  {
    QuietKeeps(c, srv, others, cl.uid);
    assert SessionOf(srv, cl.uid) == Some(srv.sessions[cl.uid]);
  }

  lemma AsksCert(c: Crypto, srv: Server, cl: Client, draws: Draws, others: seq<Event>)
    requires Honest(c, cl) && Keyed(srv) && srv.enabled && cl.uid !in srv.sessions && Quiet(others, cl.uid)
    ensures var t := Turn(c, srv, others, AskCert(cl, draws));
      Holding(c, t.0, cl, Fresh, draws) && t.1 == Parked
  {
    QuietKeeps(c, srv, others, cl.uid);
    assert SessionOf(srv, cl.uid) == None;
  }

  lemma PinArrives(c: Crypto, srv: Server, cl: Client, name: string, draws: Draws, others: seq<Event>)
    requires Honest(c, cl) && Holding(c, srv, cl, Fresh, draws) && Quiet(others, cl.uid)
    ensures var t := Turn(c, srv, others, PinEntered(cl.pin, name, cl.uid));
      Holding(c, t.0, cl, GotServerCert, draws) && t.1 == ServerCertificate(c.serverCert)
  {
    HoldingThrough(c, srv, cl, Fresh, draws, others);
  }

  lemma Challenges(c: Crypto, srv: Server, cl: Client, any: Draws, draws: Draws, others: seq<Event>)
    requires Honest(c, cl) && Holding(c, srv, cl, GotServerCert, any) && |draws.secret| == 16 && Quiet(others, cl.uid)
    ensures var t := Turn(c, srv, others, SendChallenge(c, cl, draws));
      && Holding(c, t.0, cl, GotChallenge, draws)
      && t.1 == Answer(c, cl, draws)
  {
    HoldingThrough(c, srv, cl, GotServerCert, any, others);
  }

  /** The server's answer to the client's challenge. */
  function Answer(c: Crypto, cl: Client, draws: Draws): Reply
    requires |cl.salt| >= 32
  {
    ChallengeResponse(c.encrypt(KeyOf(c, cl), c.hash(cl.challenge + c.certSignature(c.serverCert) + draws.secret) + draws.challenge))
  }

  lemma ChallengeIsRead(c: Crypto, cl: Client, draws: Draws, any: Draws)
    requires Honest(c, cl) && |draws.challenge| == 16
    ensures var e := SendResponse(c, cl, Answer(c, cl, draws), any);
      && e.args.serverChallengeResp.Some?
      && c.decrypt(KeyOf(c, cl), e.args.serverChallengeResp.value)
         == c.hash(draws.challenge + c.certSignature(cl.cert) + cl.secret)
  {
    var hash := c.hash(cl.challenge + c.certSignature(c.serverCert) + draws.secret);
    assert |hash + draws.challenge| == 48;
    assert (hash + draws.challenge)[32..] == draws.challenge;
    assert |c.hash(draws.challenge + c.certSignature(cl.cert) + cl.secret)| % 16 == 0;
  }

  lemma Responds(c: Crypto, srv: Server, cl: Client, draws: Draws, any: Draws, others: seq<Event>)
    requires Honest(c, cl) && Holding(c, srv, cl, GotChallenge, draws) && |draws.secret| == |draws.challenge| == 16
    requires Quiet(others, cl.uid)
    ensures var t := Turn(c, srv, others, SendResponse(c, cl, Answer(c, cl, draws), any));
      && Holding(c, t.0, cl, GotResponse, draws)
      && t.1 == PairingSecret(draws.secret + c.sign(c.serverKey, draws.secret))
  {
    HoldingThrough(c, srv, cl, GotChallenge, draws, others);
    ChallengeIsRead(c, cl, draws, any);
    hide Answer, Honest, KeyOf;
  }

  lemma Proves(c: Crypto, srv: Server, cl: Client, draws: Draws, any: Draws, others: seq<Event>)
    requires Honest(c, cl) && Holding(c, srv, cl, GotResponse, draws) && Quiet(others, cl.uid)
    ensures var t := Turn(c, srv, others, SendSecret(c, cl, any));
      t.1 == Paired && cl.uid !in t.0.sessions && HasCert(t.0.devices, cl.cert)
  {
    HoldingThrough(c, srv, cl, GotResponse, draws, others);
    var now := Run(c, srv, others);
    SecretProves(c, now.sessions[cl.uid], cl, draws);
    AddedCerts(now.devices, NewDevice(now, now.sessions[cl.uid], any), now.freshState, cl.cert);
    hide Added, Proven, Honest, NewDevice, HasCert, Run, Quiet;
    assert Step(c, now, SendSecret(c, cl, any)) ==
      ClientPairingSecret(c, now, now.sessions[cl.uid], cl.secret + c.sign(cl.privateKey, cl.secret), any);
  }

  lemma SecretProves(c: Crypto, s: Session, cl: Client, draws: Draws)
    requires Honest(c, cl) && s.cert == cl.cert && s.serverChallenge == draws.challenge
    requires s.clientHash == c.hash(draws.challenge + c.certSignature(cl.cert) + cl.secret)
    ensures Proven(c, s, cl.secret + c.sign(cl.privateKey, cl.secret))
    ensures c.validCert(s.cert) && |cl.secret + c.sign(cl.privateKey, cl.secret)| > 16
  {
    var message := cl.secret + c.sign(cl.privateKey, cl.secret);
    assert message[..16] == cl.secret && message[16..] == c.sign(cl.privateKey, cl.secret);
  }

  lemma UpToChallenge(c: Crypto, srv: Server, cl: Client, name: string, d: seq<Draws>, q: seq<seq<Event>>)
    returns (t0: (Server, Reply), t1: (Server, Reply), t2: (Server, Reply))
    requires Honest(c, cl) && Keyed(srv) && srv.enabled && cl.uid !in srv.sessions
    requires |d| == 4 && |q| == 5 && |d[1].secret| == 16
    requires Quiet(q[0], cl.uid) && Quiet(q[1], cl.uid) && Quiet(q[2], cl.uid)
    ensures t0 == Turn(c, srv, q[0], AskCert(cl, d[0]))
    ensures t1 == Turn(c, t0.0, q[1], PinEntered(cl.pin, name, cl.uid)) && t1.1 == ServerCertificate(c.serverCert)
    ensures t2 == Turn(c, t1.0, q[2], SendChallenge(c, cl, d[1])) && t2.1 == Answer(c, cl, d[1])
    ensures Holding(c, t2.0, cl, GotChallenge, d[1])
  {
    assert |cl.salt| >= 32;
    hide Turn, Holding, Honest, Quiet, Keyed, AskCert, SendChallenge, KeyOf, Answer;
    AsksCert(c, srv, cl, d[0], q[0]);
    t0 := Turn(c, srv, q[0], AskCert(cl, d[0]));
    PinArrives(c, t0.0, cl, name, d[0], q[1]);
    t1 := Turn(c, t0.0, q[1], PinEntered(cl.pin, name, cl.uid));
    Challenges(c, t1.0, cl, d[0], d[1], q[2]);
    t2 := Turn(c, t1.0, q[2], SendChallenge(c, cl, d[1]));
  }

  /** An honest client whose PIN is entered ends up paired, whatever other clients do in between. */
  lemma HonestClientIsPaired(c: Crypto, srv: Server, cl: Client, name: string, d: seq<Draws>, q: seq<seq<Event>>)
    returns (end: Server, replies: seq<Reply>)
    requires Honest(c, cl) && Keyed(srv) && srv.enabled && cl.uid !in srv.sessions
    requires |d| == 4 && |d[1].secret| == |d[1].challenge| == 16
    requires |q| == 5 && Quiet(q[0], cl.uid) && Quiet(q[1], cl.uid) && Quiet(q[2], cl.uid) && Quiet(q[3], cl.uid) && Quiet(q[4], cl.uid)
    ensures var t0 := Turn(c, srv, q[0], AskCert(cl, d[0]));
      var t1 := Turn(c, t0.0, q[1], PinEntered(cl.pin, name, cl.uid));
      var t2 := Turn(c, t1.0, q[2], SendChallenge(c, cl, d[1]));
      var t3 := Turn(c, t2.0, q[3], SendResponse(c, cl, t2.1, d[2]));
      var t4 := Turn(c, t3.0, q[4], SendSecret(c, cl, d[3]));
      && end == t4.0 && replies == [t0.1, t1.1, t2.1, t3.1, t4.1]
    ensures HasCert(end.devices, cl.cert) && cl.uid !in end.sessions
    ensures replies[1] == ServerCertificate(c.serverCert) && replies[2] == Answer(c, cl, d[1]) && replies[4] == Paired
    ensures replies[3] == PairingSecret(d[1].secret + c.sign(c.serverKey, d[1].secret))
  {
    hide Turn, Step, Run, Holding, Laws, Quiet, Keyed, AskCert, SendChallenge, SendResponse, SendSecret, KeyOf, Answer, HasCert;
    var t0, t1, t2 := UpToChallenge(c, srv, cl, name, d, q);
    Responds(c, t2.0, cl, d[1], d[2], q[3]);
    var t3 := Turn(c, t2.0, q[3], SendResponse(c, cl, t2.1, d[2]));
    Proves(c, t3.0, cl, d[1], d[3], q[4]);
    var t4 := Turn(c, t3.0, q[4], SendSecret(c, cl, d[3]));
    end, replies := t4.0, [t0.1, t1.1, t2.1, t3.1, t4.1];
  }

  // ----- One-time PINs -----

  /** A first request with a one-time PIN, as `pair` sees it. */
  predicate BringsOtp(srv: Server, e: Event) {
    && e.PairRequest? && srv.enabled && e.args.uid.Some? && e.args.phrase == Some("getservercert") && e.args.otpAuth.Some?
    && e.args.deviceName.Some? && e.args.clientCert.Some? && e.args.salt.Some?
  }

  predicate OtpUsed(c: Crypto, srv: Server, e: Event) {
    BringsOtp(srv, e) && OtpProven(c, srv, e.args.salt.value, e.args, e.draws)
  }

  lemma BeginOtp(c: Crypto, srv: Server, e: Event)
    requires e.PairRequest? && srv.enabled && e.args.uid.Some? && e.args.phrase == Some("getservercert")
    ensures Begin(c, srv, e.args.uid.value, e.args, e.draws).0.otp
         == if BringsOtp(srv, e) && (srv.otp.pin == "" || e.draws.otpExpired || OtpUsed(c, srv, e)) then NO_OTP else srv.otp
  {
  }

  /** A one-time PIN goes when it is used or found expired, and comes by a request for one; a wrong answer does not touch it. */
  lemma OtpAfter(c: Crypto, srv: Server, e: Event)
    ensures var after := Step(c, srv, e).0.otp;
      if e.OtpRequested? then after == (if |e.passphrase| < 4 then srv.otp else Otp(e.drawn, e.passphrase, e.deviceName))
      else after == if BringsOtp(srv, e) && (srv.otp.pin == "" || e.draws.otpExpired || OtpUsed(c, srv, e)) then Otp("", "", "") else srv.otp
  {
    hide Added, NewDevice, Proven, Begin, OtpProven;
    if e.PairRequest? && srv.enabled && e.args.uid.Some? && e.args.phrase == Some("getservercert") {
      BeginOtp(c, srv, e);
    }
  }

  lemma {:induction false} NoOtpSince(c: Crypto, srv: Server, events: seq<Event>, i: nat, m: nat)
    requires i < m <= |events| && OtpUsed(c, StateAt(c, srv, events, i), events[i])
    requires forall k :: i < k < m ==> !events[k].OtpRequested?
    ensures StateAt(c, srv, events, m).otp.pin == ""
    decreases m
  {
    hide Step, OtpProven;
    NextState(c, srv, events, m - 1);
    OtpAfter(c, StateAt(c, srv, events, m - 1), events[m - 1]);
    if m > i + 1 {
      NoOtpSince(c, srv, events, i, m - 1);
    }
  }

  /** A one-time PIN works once: between two sessions it opens a new one was requested. */
  lemma OtpWorksOnce(c: Crypto, srv: Server, events: seq<Event>, i: nat, j: nat)
    requires i < j < |events|
    requires OtpUsed(c, StateAt(c, srv, events, i), events[i]) && OtpUsed(c, StateAt(c, srv, events, j), events[j])
    ensures exists k :: i < k < j && events[k].OtpRequested?
  {
    hide Step, StateAt;
    if forall k :: i < k < j ==> !events[k].OtpRequested? {
      NoOtpSince(c, srv, events, i, j);
    }
  }

  /** The answers let the client check the server in turn: the hash it got covers its challenge and the secret it gets later. */
  lemma ServerIsProven(c: Crypto, cl: Client, draws: Draws)
    requires Honest(c, cl) && |draws.secret| == |draws.challenge| == 16
    ensures var plain, later := c.decrypt(KeyOf(c, cl), Answer(c, cl, draws).bytes), draws.secret + c.sign(c.serverKey, draws.secret);
      |plain| == 48 && plain[..32] == c.hash(cl.challenge + c.certSignature(c.serverCert) + later[..16])
  {
    var hash := c.hash(cl.challenge + c.certSignature(c.serverCert) + draws.secret);
    assert |hash + draws.challenge| == 48 && (hash + draws.challenge)[..32] == hash;
    assert (draws.secret + c.sign(c.serverKey, draws.secret))[..16] == draws.secret;
  }

  lemma Overwritten(m: map<string, Session>, u: string)
    ensures forall s, t {:trigger m[u := s][u := t]} :: m[u := s][u := t] == m[u := t]
    ensures forall s {:trigger m[u := s]} :: m[u := s] - {u} == m - {u}
    ensures u in m ==> m[u := m[u]] == m
  {
  }

  /** The first request of a client that knows a one-time PIN and its passphrase. */
  function AskCertWithOtp(c: Crypto, cl: Client, passphrase: string, draws: Draws): Event {
    PairRequest(NO_ARGS.(uid := Some(cl.uid), phrase := Some("getservercert"), deviceName := Some(cl.name),
      clientCert := Some(cl.cert), salt := Some(cl.salt), otpAuth := Some(c.hexHash(cl.pin + cl.salt + passphrase))), draws)
  }

  lemma AsksWithOtp(c: Crypto, srv: Server, cl: Client, passphrase: string, draws: Draws)
    requires Honest(c, cl) && Keyed(srv) && srv.enabled && cl.uid !in srv.sessions
    requires srv.otp.pin == cl.pin && srv.otp.passphrase == passphrase && !draws.otpExpired
    ensures var t := Step(c, srv, AskCertWithOtp(c, cl, passphrase, draws));
      Holding(c, t.0, cl, GotServerCert, draws) && t.1 == ServerCertificate(c.serverCert) && t.0.otp == NO_OTP
  {
  }

  /**
   An honest client that knows the one-time PIN and its passphrase ends up paired without anybody
   entering a PIN, whatever other clients do meanwhile; the PIN is used up.
   */
  lemma HonestOtpClientIsPaired(c: Crypto, srv: Server, cl: Client, passphrase: string, d: seq<Draws>, q: seq<seq<Event>>)
    returns (end: Server, used: Server, replies: seq<Reply>)
    requires Honest(c, cl) && Keyed(srv) && srv.enabled && cl.uid !in srv.sessions
    requires srv.otp.pin == cl.pin && srv.otp.passphrase == passphrase
    requires |d| == 4 && !d[0].otpExpired && |d[1].secret| == |d[1].challenge| == 16
    requires |q| == 3 && Quiet(q[0], cl.uid) && Quiet(q[1], cl.uid) && Quiet(q[2], cl.uid)
    ensures var t0 := Step(c, srv, AskCertWithOtp(c, cl, passphrase, d[0]));
      var t1 := Turn(c, t0.0, q[0], SendChallenge(c, cl, d[1]));
      var t2 := Turn(c, t1.0, q[1], SendResponse(c, cl, t1.1, d[2]));
      var t3 := Turn(c, t2.0, q[2], SendSecret(c, cl, d[3]));
      && used == t0.0 && end == t3.0 && replies == [t0.1, t1.1, t2.1, t3.1]
    ensures used.otp == NO_OTP && HasCert(end.devices, cl.cert) && cl.uid !in end.sessions
    ensures replies[0] == ServerCertificate(c.serverCert) && replies[3] == Paired
  {
    assert |cl.salt| >= 32;
    hide Step, Turn, Holding, Honest, Quiet, Keyed, AskCertWithOtp, SendChallenge, SendResponse, SendSecret, KeyOf, Answer, HasCert;
    AsksWithOtp(c, srv, cl, passphrase, d[0]);
    var t0 := Step(c, srv, AskCertWithOtp(c, cl, passphrase, d[0]));
    Challenges(c, t0.0, cl, d[0], d[1], q[0]);
    var t1 := Turn(c, t0.0, q[0], SendChallenge(c, cl, d[1]));
    Responds(c, t1.0, cl, d[1], d[2], q[1]);
    var t2 := Turn(c, t1.0, q[1], SendResponse(c, cl, t1.1, d[2]));
    Proves(c, t2.0, cl, d[1], d[3], q[2]);
    var t3 := Turn(c, t2.0, q[2], SendSecret(c, cl, d[3]));
    used, end, replies := t0.0, t3.0, [t0.1, t1.1, t2.1, t3.1];
  }

  // ----- The server's own state -----

  class PairServer {
    var sessions: map<string, Session>
    var otp: Otp
    const root: ClientRoot
    const enabled: bool
    const freshState: bool
    const c: Crypto

    constructor (c: Crypto, root: ClientRoot, enabled: bool, freshState: bool)
      ensures State() == Server(map[], root.namedDevices, NO_OTP, enabled, freshState)
      ensures this.c == c && this.root == root && Inv(State())
    {
      this.c, this.root, this.enabled, this.freshState := c, root, enabled, freshState;
      sessions, otp := map[], NO_OTP;
    }

    ghost function State(): Server
      reads this, root
    {
      Server(sessions, root.namedDevices, otp, enabled, freshState)
    }

    method Fail(sess: Session) returns (reply: Reply)
      modifies this`sessions
      ensures (State(), reply) == FailPair(old(State()), sess)
    {
      sessions := sessions - {sess.uid};
      reply := Refused(400);
    }

    method CallGetServerCert(sess: Session, pin: string) returns (reply: Reply)
      requires sess.uid in sessions
      modifies this`sessions
      ensures (State(), reply) == GetServerCert(c, old(State()), sess, pin)
    {
      Overwritten(sessions, sess.uid);
      if sess.phase != Fresh {
        reply := Fail(sess);
        return;
      }
      sessions := sessions[sess.uid := sess.(phase := GotServerCert)];
      if |sess.salt| < 32 {
        reply := Fail(sess);
        return;
      }
      var key := c.genKey(sess.salt[..32], pin);
      sessions := sessions[sess.uid := sess.(phase := GotServerCert, key := Some(key))];
      reply := ServerCertificate(c.serverCert);
    }

    method CallClientChallenge(sess: Session, challenge: string, draws: Draws) returns (reply: Reply)
      requires sess.uid in sessions
      modifies this`sessions
      ensures (State(), reply) == ClientChallenge(c, old(State()), sess, challenge, draws)
    {
      Overwritten(sessions, sess.uid);
      if sess.phase != GotServerCert {
        reply := Fail(sess);
        return;
      }
      var now := sess.(phase := GotChallenge);
      sessions := sessions[sess.uid := now];
      if now.key.None? {
        reply := Fail(sess);
        return;
      }
      var decrypted := c.decrypt(now.key.value, challenge);
      decrypted := decrypted + c.certSignature(c.serverCert);
      decrypted := decrypted + draws.secret;
      var encrypted := c.encrypt(now.key.value, c.hash(decrypted) + draws.challenge);
      sessions := sessions[sess.uid := now.(serverSecret := draws.secret, serverChallenge := draws.challenge)];
      reply := ChallengeResponse(encrypted);
    }

    method CallServerChallengeResp(sess: Session, response: string) returns (reply: Reply)
      requires sess.uid in sessions
      modifies this`sessions
      ensures (State(), reply) == ServerChallengeResp(c, old(State()), sess, response)
    {
      Overwritten(sessions, sess.uid);
      if sess.phase != GotChallenge {
        reply := Fail(sess);
        return;
      }
      var now := sess.(phase := GotResponse);
      sessions := sessions[sess.uid := now];
      if now.key.None? || now.serverSecret == "" {
        reply := Fail(sess);
        return;
      }
      now := now.(clientHash := c.decrypt(now.key.value, response));
      sessions := sessions[sess.uid := now];
      reply := PairingSecret(now.serverSecret + c.sign(c.serverKey, now.serverSecret));
    }

    method CallClientPairingSecret(sess: Session, secret: string, draws: Draws) returns (reply: Reply)
      requires sess.uid in sessions
      modifies this`sessions, root
      ensures (State(), reply) == ClientPairingSecret(c, old(State()), sess, secret, draws)
    {
      Overwritten(sessions, sess.uid);
      hide Added;
      if sess.phase != GotResponse {
        reply := Fail(sess);
        return;
      }
      sessions := sessions[sess.uid := sess.(phase := GotSecret)];
      if |secret| <= 16 || !c.validCert(sess.cert) {
        reply := Fail(sess);
        return;
      }
      var hash := c.hash(sess.serverChallenge + c.certSignature(sess.cert) + secret[..16]);
      var sameHash := hash == sess.clientHash;
      var verified := c.verify(sess.cert, secret[..16], secret[16..]);
      sessions := sessions - {sess.uid};
      if sameHash && verified {
        var perm := if root.namedDevices == [] then ALL else VIEW_AND_LIST;
        var device := Device(Bracketed(sess.name), draws.uuid, sess.cert, "", [], [], perm, true, true, false);
        root.AddAuthorizedClient(device, freshState);
        reply := Paired;
      } else {
        reply := NotPaired;
      }
    }

    /** A one-time PIN is used up by the client that knows it, or dropped when it has expired. */
    method StartWithOtp(sess: Session, auth: string, draws: Draws) returns (reply: Reply)
      requires sess.uid in sessions && sessions[sess.uid] == sess
      modifies this
      ensures (State(), reply) == WithOtp(c, old(State()), sess, auth, draws)
    {
      Overwritten(sessions, sess.uid);
      if otp.pin == "" || draws.otpExpired {
        otp := NO_OTP;
      } else if c.hexHash(otp.pin + sess.salt + otp.passphrase) == auth {
        var named := sess;
        if otp.deviceName != "" {
          named := sess.(name := otp.deviceName);
          sessions := sessions[sess.uid := named];
        }
        reply := CallGetServerCert(named, otp.pin);
        otp := NO_OTP;
        return;
      }
      reply := CallGetServerCert(sess, draws.junkPin);
    }

    method Start(uid: string, args: Args, draws: Draws) returns (reply: Reply)
      requires Keyed(State())
      modifies this
      ensures (State(), reply) == Begin(c, old(State()), uid, args, draws)
    {
      Overwritten(sessions, uid);
      hide WithOtp;
      if args.deviceName.None? || args.clientCert.None? {
        return Threw;
      }
      var name := if args.deviceName.value == "roth" then "Legacy Moonlight Client" else args.deviceName.value;
      if uid !in sessions {
        sessions := sessions[uid := Session(uid, args.clientCert.value, name, "", false, None, "", "", "", Fresh)];
      }
      if args.salt.None? {
        return Threw;
      }
      var sess := sessions[uid].(salt := args.salt.value);
      sessions := sessions[uid := sess];
      assert State() == Put(old(State()), sess);
      if args.otpAuth.Some? {
        reply := StartWithOtp(sess, args.otpAuth.value, draws);
      } else {
        sessions := sessions[uid := sess.(waiting := true)];
        reply := Parked;
      }
    }

    method Pair(args: Args, draws: Draws) returns (reply: Reply)
      requires Keyed(State())
      modifies this, root
      ensures (State(), reply) == Step(c, old(State()), PairRequest(args, draws)) && Keyed(State())
    {
      hide Begin, ClientChallenge, ServerChallengeResp, ClientPairingSecret;
      StepKeepsKeyed(c, State(), PairRequest(args, draws));
      if !enabled {
        return Refused(403);
      }
      if args.uid.None? {
        return Refused(400);
      }
      var uid := args.uid.value;
      if args.phrase == Some("getservercert") {
        reply := Start(uid, args, draws);
        return;
      } else if args.phrase == Some("pairchallenge") {
        return Accepted;
      }
      if uid !in sessions {
        return Refused(400);
      }
      if args.clientChallenge.Some? {
        reply := CallClientChallenge(sessions[uid], args.clientChallenge.value, draws);
      } else if args.serverChallengeResp.Some? {
        reply := CallServerChallengeResp(sessions[uid], args.serverChallengeResp.value);
      } else if args.clientPairingSecret.Some? {
        reply := CallClientPairingSecret(sessions[uid], args.clientPairingSecret.value, draws);
      } else {
        reply := Refused(404);
      }
    }

    method RequestOtp(drawn: string, passphrase: string, deviceName: string) returns (reply: Reply)
      requires Keyed(State())
      modifies this`otp
      ensures (State(), reply) == Step(c, old(State()), OtpRequested(drawn, passphrase, deviceName)) && Keyed(State())
    {
      if |passphrase| < 4 {
        return Refused(400);
      }
      otp := Otp(drawn, passphrase, deviceName);
      reply := Accepted;
    }

    method Pin(pin: string, name: string, first: string) returns (reply: Reply)
      requires Keyed(State())
      modifies this`sessions
      ensures (State(), reply) == Step(c, old(State()), PinEntered(pin, name, first)) && Keyed(State())
    {
      Overwritten(sessions, first);
      StepKeepsKeyed(c, State(), PinEntered(pin, name, first));
      if first !in sessions || !IsPin(pin) {
        return Refused(400);
      }
      reply := CallGetServerCert(sessions[first], pin);
      if first in sessions {
        var sess := sessions[first];
        if name != "" {
          sess := sess.(name := name);
        }
        sessions := sessions[first := sess.(waiting := false)];
      }
    }
  }
}
