/**
 Pairing. A client and the server prove to each other in four phases that they know the same PIN; the
 sessions under way are kept in a map, and any number of clients may send any requests in any order.
 */
module Pairing {

  import opened Wrappers

  type Byte = x: int | 0 <= x < 0x100

  type Bytes = seq<Byte>

  /** Library functions, of which nothing is known but what a property says. */
  datatype Crypto = Crypto(
    key: (string, string) -> Bytes,                // AES key from salt and PIN
    encrypt: (Bytes, Bytes) -> Bytes,
    decrypt: (Bytes, Bytes) -> Bytes,
    hash: Bytes -> Bytes,
    validCert: Bytes -> bool,
    certSignature: Bytes -> Bytes,
    sign: (Bytes, Bytes) -> Bytes,
    verify: (Bytes, Bytes, Bytes) -> bool)         // certificate, data, signature

  /** The cryptography library, and the server's certificate and private key. */
  datatype Server = Server(crypto: Crypto, cert: Bytes, pkey: Bytes)

  datatype Phase = NONE | GETSERVERCERT | CLIENTCHALLENGE | SERVERCHALLENGERESP | CLIENTPAIRINGSECRET

  /** `entry` tells apart the sessions that one client has had. */
  datatype Session = Session(entry: nat, cert: Bytes, name: string, cipherKey: Option<Bytes>, clientHash: Bytes,
                             serverSecret: Bytes, serverChallenge: Bytes, salt: string, lastPhase: Phase)

  /** A phase that ran to its end on a session, with what was exchanged. */
  datatype Done =
    | DoneCert(entry: nat, salt: string, pin: string)
    | DoneChallenge(entry: nat, challenge: Bytes, serverSecret: Bytes, serverChallenge: Bytes)
    | DoneResponse(entry: nat, response: Bytes)
    | DoneSecret(entry: nat, secret: Bytes)

  datatype Client = Client(entry: nat, cert: Bytes, name: string)

  /** `order` is the order in which the session map is walked; the hash table decides it. */
  datatype State = State(sessions: map<string, Session>, order: seq<string>, authorized: seq<Client>,
      history: seq<Done>, entries: nat)

  const START: State := State(map[], [], [], [], 0)

  datatype Reply = Reply(code: nat, paired: Option<bool>, payload: Bytes) | Deferred

  /** `order` is how the hash table may be walked after an insertion, which can move every entry. */
  datatype Request =
    | GetServerCert(uid: string, cert: Bytes, salt: string, typedPin: Option<string>, order: seq<string>)
    | ClientChallenge(uid: string, challenge: Bytes, randomSecret: Bytes, randomChallenge: Bytes)
    | ServerChallengeResp(uid: string, response: Bytes)
    | ClientPairingSecret(uid: string, secret: Bytes)
    | Unrecognized(uid: string)
    | Pin(pin: string, name: string)

  const FAILED: Reply := Reply(400, Some(false), [])

  predicate Apart(order: seq<string>) {
    forall i, j :: 0 <= i < j < |order| ==> order[i] != order[j]
  }

  predicate IsOrder(order: seq<string>, keys: set<string>) {
    Apart(order) && (forall u :: u in order ==> u in keys) && (forall u :: u in keys ==> u in order)
  }

  function Without(order: seq<string>, uid: string): seq<string> {
    if order == [] then [] else (if order[0] == uid then [] else [order[0]]) + Without(order[1..], uid)
  }

  lemma {:induction false} WithoutHas(order: seq<string>, uid: string)
    ensures forall u :: u in Without(order, uid) <==> u in order && u != uid
  {
    if order != [] {
      WithoutHas(order[1..], uid);
      assert order == [order[0]] + order[1..];
    }
  }

  lemma {:induction false} WithoutKeeps(order: seq<string>, uid: string)
    ensures forall u :: u in Without(order, uid) <==> u in order && u != uid
    ensures Apart(order) ==> Apart(Without(order, uid))
  {
    WithoutHas(order, uid);
    if order != [] && Apart(order) {
      var rest := Without(order[1..], uid);
      WithoutKeeps(order[1..], uid);
      ApartCons(order[0], rest);
      assert [] + rest == rest;
    }
  }

  lemma ApartCons(uid: string, rest: seq<string>)
    requires Apart(rest) && uid !in rest
    ensures Apart([uid] + rest)
  {
  }

  /** The first session of the map. */
  function Front(s: State): Option<string> {
    if s.order == [] then None else Some(s.order[0])
  }

  /** remove_session: the other sessions keep their places. */
  function Remove(s: State, uid: string): State {
    s.(sessions := s.sessions - {uid}, order := Without(s.order, uid))
  }

  /** fail_pair */
  function Fail(s: State, uid: string): (State, Reply) {
    (Remove(s, uid), FAILED)
  }

  function Update(s: State, uid: string, session: Session, done: Done): State {
    s.(sessions := s.sessions[uid := session], history := s.history + [done])
  }

  /** getservercert */
  function ServerCertPhase(srv: Server, s: State, uid: string, pin: string): (State, Reply)
    requires uid in s.sessions
  {
    var session := s.sessions[uid];
    if session.lastPhase != NONE || |session.salt| < 32 then Fail(s, uid)
    else
      var salt := session.salt[..32];
      var next := session.(lastPhase := GETSERVERCERT, cipherKey := Some(srv.crypto.key(salt, pin)));
      (Update(s, uid, next, DoneCert(session.entry, salt, pin)), Reply(200, Some(true), srv.cert))
  }

  /** clientchallenge */
  function ChallengePhase(srv: Server, s: State, uid: string, challenge: Bytes, secret: Bytes,
                          serverChallenge: Bytes): (State, Reply)
    requires uid in s.sessions
  {
    var session := s.sessions[uid];
    if session.lastPhase != GETSERVERCERT || session.cipherKey.None? then Fail(s, uid)
    else
      var key := session.cipherKey.value;
      var hash := srv.crypto.hash(srv.crypto.decrypt(key, challenge) + srv.crypto.certSignature(srv.cert) + secret);
      var next := session.(lastPhase := CLIENTCHALLENGE, serverSecret := secret, serverChallenge := serverChallenge);
      (Update(s, uid, next, DoneChallenge(session.entry, challenge, secret, serverChallenge)),
       Reply(200, Some(true), srv.crypto.encrypt(key, hash + serverChallenge)))
  }

  /** serverchallengeresp */
  function ResponsePhase(srv: Server, s: State, uid: string, response: Bytes): (State, Reply)
    requires uid in s.sessions
  {
    var session := s.sessions[uid];
    if session.lastPhase != CLIENTCHALLENGE || session.cipherKey.None? || session.serverSecret == [] then Fail(s, uid)
    else
      var next := session.(lastPhase := SERVERCHALLENGERESP,
                           clientHash := srv.crypto.decrypt(session.cipherKey.value, response));
      (Update(s, uid, next, DoneResponse(session.entry, response)),
       Reply(200, Some(true), session.serverSecret + srv.crypto.sign(srv.pkey, session.serverSecret)))
  }

  /** The last check: the hash received in the third phase, and the client's signature of its secret. */
  predicate Proven(crypto: Crypto, serverChallenge: Bytes, cert: Bytes, clientHash: Bytes, secret: Bytes)
    requires |secret| > 16
  {
    && crypto.hash(serverChallenge + crypto.certSignature(cert) + secret[..16]) == clientHash
    && crypto.verify(cert, secret[..16], secret[16..])
  }

  /** clientpairingsecret */
  function SecretPhase(srv: Server, s: State, uid: string, secret: Bytes): (State, Reply)
    requires uid in s.sessions
  {
    var session := s.sessions[uid];
    if session.lastPhase != SERVERCHALLENGERESP || |secret| <= 16 || !srv.crypto.validCert(session.cert)
    then Fail(s, uid)
    else if Proven(srv.crypto, session.serverChallenge, session.cert, session.clientHash, secret) then
      (Remove(s, uid).(authorized := s.authorized + [Client(session.entry, session.cert, session.name)],
                       history := s.history + [DoneSecret(session.entry, secret)]),
       Reply(200, Some(true), []))
    else (Remove(s, uid), Reply(200, Some(false), []))
  }

  /** A request for a certificate: a session already there stays, but takes over the salt. */
  function Opened(s: State, uid: string, cert: Bytes, salt: string, order: seq<string>): State {
    if uid in s.sessions then s.(sessions := s.sessions[uid := s.sessions[uid].(salt := salt)])
    else
      var session := Session(s.entries, cert, [], None, [], [], [], salt, NONE);
      s.(sessions := s.sessions[uid := session], order := Reordered(s.order, s.sessions.Keys + {uid}, uid, order),
         entries := s.entries + 1)
  }

  /** Any order of the keys is possible; what is none stands for the new one at the end. */
  function Reordered(before: seq<string>, keys: set<string>, uid: string, order: seq<string>): seq<string> {
    if IsOrder(order, keys) then order else before + [uid]
  }

  predicate Digits(pin: string) {
    |pin| == 4 && forall i :: 0 <= i < 4 ==> '0' <= pin[i] <= '9'
  }

  function Named(s: State, uid: string, name: string): State {
    if uid in s.sessions then s.(sessions := s.sessions[uid := s.sessions[uid].(name := name)]) else s
  }

  /** Whom a request is for: a PIN goes to the session at the start of the map, whoever it was meant for. */
  function Target(s: State, r: Request): Option<string> {
    if r.Pin? then Front(s) else Some(r.uid)
  }

  /** pin, for the session at the start of the map */
  function EnterPin(srv: Server, s: State, uid: string, pin: string, name: string): (State, Reply)
    requires uid in s.sessions
  {
    if !Digits(pin) then (s, Reply(400, Some(false), []))
    else
      var (served, reply) := ServerCertPhase(srv, s, uid, pin);
      (Named(served, uid, name), reply)
  }

  /** pair and pin */
  function Serve(srv: Server, s: State, r: Request): (State, Reply) {
    if r.GetServerCert? then
      var begun := Opened(s, r.uid, r.cert, r.salt, r.order);
      if r.typedPin.Some? then ServerCertPhase(srv, begun, r.uid, r.typedPin.value) else (begun, Deferred)
    else
      var target := Target(s, r);
      if target.None? || target.value !in s.sessions then (s, Reply(400, None, []))
      else
        match r
        case ClientChallenge(uid, challenge, secret, serverChallenge) =>
          ChallengePhase(srv, s, uid, challenge, secret, serverChallenge)
        case ServerChallengeResp(uid, response) => ResponsePhase(srv, s, uid, response)
        case ClientPairingSecret(uid, secret) => SecretPhase(srv, s, uid, secret)
        case Unrecognized(_) => (s, Reply(404, None, []))
        case Pin(pin, name) => EnterPin(srv, s, target.value, pin, name)
  }

  function Run(srv: Server, s: State, requests: seq<Request>): State {
    if requests == [] then s else Serve(srv, Run(srv, s, requests[..|requests| - 1]), requests[|requests| - 1]).0
  }

  // Safety.

  function ForEntry(entry: nat, history: seq<Done>): seq<Done> {
    if history == [] then []
    else
      var done := history[|history| - 1];
      ForEntry(entry, history[..|history| - 1]) + if done.entry == entry then [done] else []
  }

  lemma ForEntryAppend(entry: nat, history: seq<Done>, done: Done)
    ensures ForEntry(entry, history + [done])
            == if done.entry == entry then ForEntry(entry, history) + [done] else ForEntry(entry, history)
  {
    assert (history + [done])[..|history|] == history;
    assert ForEntry(entry, history) + [] == ForEntry(entry, history);
  }

  /** What a session holds is what its phases, run in order and once each, have put there. */
  predicate Progress(srv: Server, x: Session, done: seq<Done>) {
    match x.lastPhase
    case NONE => done == [] && x.name == []
    case GETSERVERCERT => |done| == 1 && KeyDone(srv, x, done[0])
    case CLIENTCHALLENGE => |done| == 2 && KeyDone(srv, x, done[0]) && ChallengeDone(x, done[1])
    case SERVERCHALLENGERESP =>
      |done| == 3 && KeyDone(srv, x, done[0]) && ChallengeDone(x, done[1]) && done[2].DoneResponse?
      && x.clientHash == srv.crypto.decrypt(x.cipherKey.value, done[2].response)
    case CLIENTPAIRINGSECRET => false
  }

  predicate KeyDone(srv: Server, x: Session, d: Done) {
    d.DoneCert? && |d.salt| == 32 && x.cipherKey == Some(srv.crypto.key(d.salt, d.pin))
  }

  predicate ChallengeDone(x: Session, d: Done) {
    d.DoneChallenge? && x.serverChallenge == d.serverChallenge && x.serverSecret == d.serverSecret
  }

  /** The four phases, in order, once each, on one session, and the proof that closes them. */
  predicate PairedProperly(srv: Server, cert: Bytes, done: seq<Done>) {
    && |done| == 4 && done[0].DoneCert? && done[1].DoneChallenge? && done[2].DoneResponse? && done[3].DoneSecret?
    && |done[3].secret| > 16 && srv.crypto.validCert(cert)
    && Proven(srv.crypto, done[1].serverChallenge, cert,
              srv.crypto.decrypt(srv.crypto.key(done[0].salt, done[0].pin), done[2].response), done[3].secret)
  }

  ghost predicate SessionsOk(srv: Server, s: State) {
    forall u :: u in s.sessions ==>
      s.sessions[u].entry < s.entries && Progress(srv, s.sessions[u], ForEntry(s.sessions[u].entry, s.history))
  }

  ghost predicate EntriesApart(s: State) {
    forall u, v :: u in s.sessions && v in s.sessions && s.sessions[u].entry == s.sessions[v].entry ==> u == v
  }

  ghost predicate ClientsOk(srv: Server, s: State) {
    forall i :: 0 <= i < |s.authorized| ==>
      var c := s.authorized[i];
      && c.entry < s.entries && PairedProperly(srv, c.cert, ForEntry(c.entry, s.history))
      && forall u :: u in s.sessions ==> s.sessions[u].entry != c.entry
  }

  ghost predicate Inv(srv: Server, s: State) {
    && SessionsOk(srv, s) && EntriesApart(s) && ClientsOk(srv, s) && HistoryOk(s.entries, s.history)
    && IsOrder(s.order, s.sessions.Keys)
  }

  lemma FailKeeps(srv: Server, s: State, uid: string)
    requires Inv(srv, s)
    ensures Inv(srv, Remove(s, uid))
  {
    WithoutKeeps(s.order, uid);
  }

  ghost predicate HistoryOk(entries: nat, history: seq<Done>) {
    forall entry :: entry >= entries ==> ForEntry(entry, history) == []
  }

  lemma HistoryKeeps(entries: nat, history: seq<Done>, done: Done)
    requires HistoryOk(entries, history) && done.entry < entries
    ensures HistoryOk(entries, history + [done])
  {
    forall entry | entry >= entries
      ensures ForEntry(entry, history + [done]) == []
    {
      ForEntryAppend(entry, history, done);
    }
  }

  /** The history of clients already authorized does not grow. */
  lemma ClientsKeep(srv: Server, s: State, done: Done, c: Client)
    requires PairedProperly(srv, c.cert, ForEntry(c.entry, s.history)) && done.entry != c.entry
    ensures PairedProperly(srv, c.cert, ForEntry(c.entry, s.history + [done]))
  {
    ForEntryAppend(c.entry, s.history, done);
  }

  lemma OthersKeep(srv: Server, s: State, done: Done, x: Session)
    requires Progress(srv, x, ForEntry(x.entry, s.history)) && done.entry != x.entry
    ensures Progress(srv, x, ForEntry(x.entry, s.history + [done]))
  {
    ForEntryAppend(x.entry, s.history, done);
  }

  /** A phase that ends on one session leaves the others, and all clients, as they are. */
  lemma UpdateKeeps(srv: Server, s: State, uid: string, next: Session, done: Done)
    requires Inv(srv, s) && uid in s.sessions
    requires next.entry == s.sessions[uid].entry == done.entry
    requires Progress(srv, next, ForEntry(next.entry, s.history) + [done])
    ensures Inv(srv, Update(s, uid, next, done))
  {
    var s' := Update(s, uid, next, done);
    HistoryKeeps(s.entries, s.history, done);
    forall u | u in s'.sessions
      ensures s'.sessions[u].entry < s'.entries
              && Progress(srv, s'.sessions[u], ForEntry(s'.sessions[u].entry, s'.history))
    {
      if u == uid {
        ForEntryAppend(next.entry, s.history, done);
      } else {
        OthersKeep(srv, s, done, s.sessions[u]);
      }
    }
    forall i | 0 <= i < |s'.authorized|
      ensures PairedProperly(srv, s'.authorized[i].cert, ForEntry(s'.authorized[i].entry, s'.history))
    {
      ClientsKeep(srv, s, done, s.authorized[i]);
    }
  }

  /** Changing a session's salt or name touches nothing that matters. */
  lemma RelabelKeeps(srv: Server, s: State, uid: string, next: Session)
    requires Inv(srv, s) && uid in s.sessions
    requires next == s.sessions[uid].(salt := next.salt, name := next.name)
    requires next.lastPhase == NONE ==> next.name == []
    ensures Inv(srv, s.(sessions := s.sessions[uid := next]))
  {
    assert Progress(srv, next, ForEntry(next.entry, s.history));
  }

  lemma OpenedKeeps(srv: Server, s: State, uid: string, cert: Bytes, salt: string, order: seq<string>)
    requires Inv(srv, s)
    ensures Inv(srv, Opened(s, uid, cert, salt, order)) && uid in Opened(s, uid, cert, salt, order).sessions
  {
    if uid in s.sessions {
      assert Progress(srv, s.sessions[uid], ForEntry(s.sessions[uid].entry, s.history));
      RelabelKeeps(srv, s, uid, s.sessions[uid].(salt := salt));
    }
  }

  lemma ServerCertKeeps(srv: Server, s: State, uid: string, pin: string)
    requires Inv(srv, s) && uid in s.sessions
    ensures Inv(srv, ServerCertPhase(srv, s, uid, pin).0)
  {
    var x := s.sessions[uid];
    if x.lastPhase != NONE || |x.salt| < 32 {
      FailKeeps(srv, s, uid);
    } else {
      var next := x.(lastPhase := GETSERVERCERT, cipherKey := Some(srv.crypto.key(x.salt[..32], pin)));
      UpdateKeeps(srv, s, uid, next, DoneCert(x.entry, x.salt[..32], pin));
    }
  }

  lemma ChallengeKeeps(srv: Server, s: State, uid: string, challenge: Bytes, secret: Bytes, serverChallenge: Bytes)
    requires Inv(srv, s) && uid in s.sessions
    ensures Inv(srv, ChallengePhase(srv, s, uid, challenge, secret, serverChallenge).0)
  {
    var x := s.sessions[uid];
    if x.lastPhase != GETSERVERCERT || x.cipherKey.None? {
      FailKeeps(srv, s, uid);
    } else {
      var next := x.(lastPhase := CLIENTCHALLENGE, serverSecret := secret, serverChallenge := serverChallenge);
      UpdateKeeps(srv, s, uid, next, DoneChallenge(x.entry, challenge, secret, serverChallenge));
    }
  }

  lemma ResponseKeeps(srv: Server, s: State, uid: string, response: Bytes)
    requires Inv(srv, s) && uid in s.sessions
    ensures Inv(srv, ResponsePhase(srv, s, uid, response).0)
  {
    var x := s.sessions[uid];
    if x.lastPhase != CLIENTCHALLENGE || x.cipherKey.None? || x.serverSecret == [] {
      FailKeeps(srv, s, uid);
    } else {
      var next := x.(lastPhase := SERVERCHALLENGERESP, clientHash := srv.crypto.decrypt(x.cipherKey.value, response));
      UpdateKeeps(srv, s, uid, next, DoneResponse(x.entry, response));
    }
  }

  lemma SecretKeeps(srv: Server, s: State, uid: string, secret: Bytes)
    requires Inv(srv, s) && uid in s.sessions
    ensures Inv(srv, SecretPhase(srv, s, uid, secret).0)
  {
    var x, s' := s.sessions[uid], SecretPhase(srv, s, uid, secret).0;
    FailKeeps(srv, s, uid);
    if s'.authorized != s.authorized {
      var done := DoneSecret(x.entry, secret);
      HistoryKeeps(s.entries, s.history, done);
      ForEntryAppend(x.entry, s.history, done);
      assert PairedProperly(srv, x.cert, ForEntry(x.entry, s'.history));
      assert SessionsOk(srv, s') by {
        forall u | u in s'.sessions
          ensures Progress(srv, s'.sessions[u], ForEntry(s'.sessions[u].entry, s'.history))
        {
          OthersKeep(srv, s, done, s.sessions[u]);
        }
      }
      assert ClientsOk(srv, s') by {
        forall i | 0 <= i < |s.authorized|
          ensures PairedProperly(srv, s.authorized[i].cert, ForEntry(s.authorized[i].entry, s'.history))
        {
          ClientsKeep(srv, s, done, s.authorized[i]);
        }
      }
    }
  }

  lemma PinKeeps(srv: Server, s: State, uid: string, pin: string, name: string)
    requires Inv(srv, s) && uid in s.sessions
    ensures Inv(srv, EnterPin(srv, s, uid, pin, name).0)
  {
    var served := ServerCertPhase(srv, s, uid, pin).0;
    ServerCertKeeps(srv, s, uid, pin);
    if uid in served.sessions {
      RelabelKeeps(srv, served, uid, served.sessions[uid].(name := name));
    }
  }

  lemma ServeKeeps(srv: Server, s: State, r: Request)
    requires Inv(srv, s)
    ensures Inv(srv, Serve(srv, s, r).0)
  {
    if r.GetServerCert? {
      OpenedKeeps(srv, s, r.uid, r.cert, r.salt, r.order);
      if r.typedPin.Some? {
        ServerCertKeeps(srv, Opened(s, r.uid, r.cert, r.salt, r.order), r.uid, r.typedPin.value);
      }
    } else if Target(s, r).Some? && Target(s, r).value in s.sessions {
      match r
      case ClientChallenge(uid, challenge, secret, serverChallenge) =>
        ChallengeKeeps(srv, s, uid, challenge, secret, serverChallenge);
      case ServerChallengeResp(uid, response) => ResponseKeeps(srv, s, uid, response);
      case ClientPairingSecret(uid, secret) => SecretKeeps(srv, s, uid, secret);
      case Unrecognized(_) =>
      case Pin(pin, name) => PinKeeps(srv, s, Target(s, r).value, pin, name);
    }
  }

  lemma {:induction false} RunInv(srv: Server, requests: seq<Request>)
    ensures Inv(srv, Run(srv, START, requests))
  {
    if requests != [] {
      RunInv(srv, requests[..|requests| - 1]);
      ServeKeeps(srv, Run(srv, START, requests[..|requests| - 1]), requests[|requests| - 1]);
    }
  }

  /** Whatever requests arrive in whatever order, a client is authorized only after its four phases. */
  lemma {:induction false} AuthorizedOnlyIfPaired(srv: Server, requests: seq<Request>, i: nat)
    requires i < |Run(srv, START, requests).authorized|
    ensures var s := Run(srv, START, requests);
            PairedProperly(srv, s.authorized[i].cert, ForEntry(s.authorized[i].entry, s.history))
  {
    RunInv(srv, requests);
  }

  /** The phase that a request continues from, for a session it may continue. */
  function Continues(r: Request): Option<Phase> {
    match r
    case GetServerCert(_, _, _, typedPin, _) => if typedPin.Some? then Some(NONE) else None
    case ClientChallenge(_, _, _, _) => Some(GETSERVERCERT)
    case ServerChallengeResp(_, _) => Some(CLIENTCHALLENGE)
    case ClientPairingSecret(_, _) => Some(SERVERCHALLENGERESP)
    case Unrecognized(_) => None
    case Pin(pin, _) => if Digits(pin) then Some(NONE) else None
  }

  /** A call out of order ends the session, authorizes nobody and touches nothing else. */
  lemma {:induction false} OutOfOrderRemoves(srv: Server, s: State, r: Request, uid: string)
    requires Target(s, r) == Some(uid) && uid in s.sessions
    requires Continues(r).Some? && s.sessions[uid].lastPhase != Continues(r).value
    ensures Serve(srv, s, r) == (Remove(s, uid), FAILED)
  {
    if r.GetServerCert? {
      assert Opened(s, uid, r.cert, r.salt, r.order).sessions - {uid} == s.sessions - {uid};
    }
  }

  ghost predicate SameFor(s: State, s': State, uid: string) {
    (uid in s.sessions <==> uid in s'.sessions) && (uid in s.sessions ==> s'.sessions[uid] == s.sessions[uid])
  }

  /** A request leaves alone the sessions it is not for. */
  lemma {:induction false} OthersUntouched(srv: Server, s: State, r: Request, uid: string)
    requires Target(s, r) != Some(uid)
    ensures SameFor(s, Serve(srv, s, r).0, uid)
  {
  }

  /** Requests of other clients, and PINs that do not reach this client's session. */
  ghost predicate Calm(srv: Server, s: State, others: seq<Request>, uid: string) {
    others == [] ||
      (Calm(srv, s, others[..|others| - 1], uid)
       && Target(Run(srv, s, others[..|others| - 1]), others[|others| - 1]) != Some(uid))
  }

  lemma {:induction false} RunOthers(srv: Server, s: State, others: seq<Request>, uid: string)
    requires Calm(srv, s, others, uid)
    ensures SameFor(s, Run(srv, s, others), uid)
    decreases |others|
  {
    if others != [] {
      RunOthers(srv, s, others[..|others| - 1], uid);
      OthersUntouched(srv, Run(srv, s, others[..|others| - 1]), others[|others| - 1], uid);
    }
  }

  /** The last reply says "paired" if and only if the client has just been authorized, and the session ends anyway. */
  lemma {:induction false} PairedMeansAuthorized(srv: Server, s: State, uid: string, secret: Bytes)
    requires uid in s.sessions
    ensures var (s', reply) := Serve(srv, s, ClientPairingSecret(uid, secret));
            var x := s.sessions[uid];
            && reply.Reply? && uid !in s'.sessions
            && (reply.paired == Some(true) <==> s'.authorized == s.authorized + [Client(x.entry, x.cert, x.name)])
            && (reply.paired == Some(false) <==> s'.authorized == s.authorized)
            && (reply.code == 400 <==>
                  x.lastPhase != SERVERCHALLENGERESP || |secret| <= 16 || !srv.crypto.validCert(x.cert))
  {
    var added := s.authorized + [Client(s.sessions[uid].entry, s.sessions[uid].cert, s.sessions[uid].name)];
    assert |added| == |s.authorized| + 1;
  }

  // Completeness.

  /** An honest client: its identity, the PIN shown to the user and how it is entered, and its two random values. */
  datatype Honest = Honest(uid: string, cert: Bytes, pkey: Bytes, salt: string, pin: string, typed: bool, name: string,
                           challenge: Bytes, secret: Bytes)

  const HASH_LENGTH: nat := 32

  ghost predicate Library(c: Crypto) {
    && (forall k, x :: c.decrypt(k, c.encrypt(k, x)) == x)
    && (forall x :: |c.hash(x)| == HASH_LENGTH)
  }

  ghost predicate Matching(c: Crypto, cert: Bytes, pkey: Bytes) {
    c.validCert(cert) && forall data :: c.verify(cert, data, c.sign(pkey, data)) && c.sign(pkey, data) != []
  }

  /** What is needed of the client and of the library, whatever else happens. */
  ghost predicate Sound(srv: Server, h: Honest, random: (Bytes, Bytes)) {
    && Library(srv.crypto) && Matching(srv.crypto, srv.cert, srv.pkey) && Matching(srv.crypto, h.cert, h.pkey)
    && |h.salt| >= 32 && Digits(h.pin) && |h.secret| == 16 && |random.0| == 16
  }

  function KeyOf(srv: Server, h: Honest): Bytes
    requires |h.salt| >= 32
  {
    srv.crypto.key(h.salt[..32], h.pin)
  }

  /** A PIN typed at the terminal comes without a name for the client. */
  function NameOf(h: Honest): string { if h.typed then [] else h.name }

  /** The client's side of the first three phases: what it sends, given the replies so far. */
  function CertRequest(h: Honest, order: seq<string>): Request {
    GetServerCert(h.uid, h.cert, h.salt, if h.typed then Some(h.pin) else None, order)
  }

  function ChallengeOf(srv: Server, h: Honest): Bytes
    requires |h.salt| >= 32
  {
    srv.crypto.encrypt(KeyOf(srv, h), h.challenge)
  }

  function ResponseOf(srv: Server, h: Honest, challengeReply: Bytes): Bytes
    requires |h.salt| >= 32
  {
    var plain := srv.crypto.decrypt(KeyOf(srv, h), challengeReply);
    var serverChallenge := if |plain| < HASH_LENGTH then [] else plain[HASH_LENGTH..];
    srv.crypto.encrypt(KeyOf(srv, h), srv.crypto.hash(serverChallenge + srv.crypto.certSignature(h.cert) + h.secret))
  }

  /** The client's own check of the server: it knew the PIN, and it holds its certificate's key. */
  predicate TrustsServer(srv: Server, h: Honest, serverCert: Bytes, challengeReply: Bytes, secretReply: Bytes)
    requires |h.salt| >= 32
  {
    var plain := srv.crypto.decrypt(KeyOf(srv, h), challengeReply);
    && |plain| >= HASH_LENGTH && |secretReply| >= 16
    && srv.crypto.hash(h.challenge + srv.crypto.certSignature(serverCert) + secretReply[..16]) == plain[..HASH_LENGTH]
    && srv.crypto.verify(serverCert, secretReply[..16], secretReply[16..])
  }

  function Payload(reply: Reply): Bytes {
    if reply.Deferred? then [] else reply.payload
  }

  /** What happens between the client's requests, and how the session map is walked after the first. */
  datatype Meanwhile = Meanwhile(order: seq<string>, asked: seq<Request>, keyed: seq<Request>,
      challenged: seq<Request>, answered: seq<Request>)

  /** When the PIN is entered, or would be. */
  function AtPin(srv: Server, s: State, h: Honest, m: Meanwhile): State {
    Run(srv, Serve(srv, s, CertRequest(h, m.order)).0, m.asked)
  }

  /** The server's certificate, if the request for it succeeded. */
  function Certificate(reply: Reply): Option<Bytes> {
    if reply.Reply? && reply.paired == Some(true) then Some(reply.payload) else None
  }

  /**
   The PIN is entered, if it was not typed at once. The held-back reply goes out with the PIN for its session,
   so a client whose session does not get the PIN gets no answer.
   */
  function PinEntered(srv: Server, s: State, h: Honest, m: Meanwhile): (State, Option<Bytes>) {
    var atPin := AtPin(srv, s, h, m);
    if h.typed then (atPin, Certificate(Serve(srv, s, CertRequest(h, m.order)).1))
    else
      var (served, reply) := Serve(srv, atPin, Pin(h.pin, h.name));
      (served, if Front(atPin) == Some(h.uid) then Certificate(reply) else None)
  }

  function Challenged(srv: Server, s: State, h: Honest, random: (Bytes, Bytes)): (State, Bytes)
    requires |h.salt| >= 32
  {
    var (served, reply) := Serve(srv, s, ClientChallenge(h.uid, ChallengeOf(srv, h), random.0, random.1));
    (served, Payload(reply))
  }

  function Answered(srv: Server, s: State, h: Honest, challengeReply: Bytes): (State, Bytes)
    requires |h.salt| >= 32
  {
    var (served, reply) := Serve(srv, s, ServerChallengeResp(h.uid, ResponseOf(srv, h, challengeReply)));
    (served, Payload(reply))
  }

  function SecretOf(srv: Server, h: Honest): Bytes { h.secret + srv.crypto.sign(h.pkey, h.secret) }

  /** A whole pairing, given up without the server's certificate; the flag says whether the client trusts the server. */
  function Pair(srv: Server, s: State, h: Honest, random: (Bytes, Bytes), m: Meanwhile): (State, bool)
    requires |h.salt| >= 32
  {
    var (s1, serverCert) := PinEntered(srv, s, h, m);
    if serverCert.None? then (Run(srv, s1, m.keyed), false)
    else
      var (s2, challengeReply) := Challenged(srv, Run(srv, s1, m.keyed), h, random);
      var (s3, secretReply) := Answered(srv, Run(srv, s2, m.challenged), h, challengeReply);
      var s4 := Serve(srv, Run(srv, s3, m.answered), ClientPairingSecret(h.uid, SecretOf(srv, h))).0;
      (s4, TrustsServer(srv, h, serverCert.value, challengeReply, secretReply))
  }

  /** Nobody else uses the client's identity or enters a PIN that reaches its session. */
  ghost predicate Undisturbed(srv: Server, s: State, h: Honest, random: (Bytes, Bytes), m: Meanwhile)
    requires |h.salt| >= 32
  {
    var (s1, serverCert) := PinEntered(srv, s, h, m);
    && Calm(srv, Serve(srv, s, CertRequest(h, m.order)).0, m.asked, h.uid)
    && Calm(srv, s1, m.keyed, h.uid)
    && (serverCert.Some? ==>
          var (s2, challengeReply) := Challenged(srv, Run(srv, s1, m.keyed), h, random);
          var (s3, _) := Answered(srv, Run(srv, s2, m.challenged), h, challengeReply);
          Calm(srv, s2, m.challenged, h.uid) && Calm(srv, s3, m.answered, h.uid))
  }

  /** A session in which an honest client has come as far as `phase`. */
  ghost predicate At(srv: Server, s: State, h: Honest, random: (Bytes, Bytes), entry: nat, phase: Phase)
    requires |h.salt| >= 32
  {
    && h.uid in s.sessions
    && var x := s.sessions[h.uid];
    && x.entry == entry && x.lastPhase == phase && x.cert == h.cert
    && (phase == NONE ==> x.salt == h.salt)
    && (phase != NONE ==> x.name == NameOf(h) && x.cipherKey == Some(KeyOf(srv, h)))
    && (phase in {CLIENTCHALLENGE, SERVERCHALLENGERESP} ==> x.serverSecret == random.0 && x.serverChallenge == random.1)
    && (phase == SERVERCHALLENGERESP ==>
          x.clientHash == srv.crypto.hash(random.1 + srv.crypto.certSignature(h.cert) + h.secret))
  }

  lemma AtOthers(srv: Server, s: State, h: Honest, random: (Bytes, Bytes), entry: nat, phase: Phase,
                 others: seq<Request>)
    requires |h.salt| >= 32 && At(srv, s, h, random, entry, phase) && Calm(srv, s, others, h.uid)
    ensures At(srv, Run(srv, s, others), h, random, entry, phase)
  {
    RunOthers(srv, s, others, h.uid);
  }

  /** What the reply to the challenge hides. */
  ghost predicate ChallengeAnswered(srv: Server, h: Honest, random: (Bytes, Bytes), reply: Bytes)
    requires |h.salt| >= 32
  {
    srv.crypto.decrypt(KeyOf(srv, h), reply)
      == srv.crypto.hash(h.challenge + srv.crypto.certSignature(srv.cert) + random.0) + random.1
  }

  /** The entry of the session that the client pairs on: the one left from an earlier attempt, or a new one. */
  function EntryOf(s: State, h: Honest): nat {
    if h.uid in s.sessions then s.sessions[h.uid].entry else s.entries
  }

  /** An earlier attempt has left no session, or one that has not got a PIN yet. */
  predicate Unstarted(s: State, h: Honest) {
    h.uid in s.sessions ==> s.sessions[h.uid].lastPhase == NONE
  }

  /** What an earlier attempt has left carries the client's certificate. */
  predicate OwnSession(s: State, h: Honest) {
    h.uid in s.sessions ==> s.sessions[h.uid].cert == h.cert
  }

  lemma FirstRequest(srv: Server, s: State, h: Honest, random: (Bytes, Bytes), order: seq<string>)
    requires Inv(srv, s) && Unstarted(s, h) && OwnSession(s, h) && |h.salt| >= 32 && Digits(h.pin)
    ensures var (s', reply) := Serve(srv, s, CertRequest(h, order));
            && At(srv, s', h, random, EntryOf(s, h), if h.typed then GETSERVERCERT else NONE)
            && (h.typed ==> Certificate(reply) == Some(srv.cert))
  {
    if h.uid in s.sessions {
      assert Progress(srv, s.sessions[h.uid], ForEntry(s.sessions[h.uid].entry, s.history));
    }
  }

  /** The PIN that reaches the client's session gives it its key. */
  lemma PinReaches(srv: Server, s: State, h: Honest, random: (Bytes, Bytes), entry: nat)
    requires |h.salt| >= 32 && Digits(h.pin) && !h.typed
    requires At(srv, s, h, random, entry, NONE) && Front(s) == Some(h.uid)
    ensures var (s', reply) := Serve(srv, s, Pin(h.pin, h.name));
            At(srv, s', h, random, entry, GETSERVERCERT) && Certificate(reply) == Some(srv.cert)
  {
  }

  lemma SecondPhase(srv: Server, s: State, h: Honest, random: (Bytes, Bytes), entry: nat)
    requires |h.salt| >= 32 && At(srv, s, h, random, entry, GETSERVERCERT) && Library(srv.crypto)
    ensures var (s', reply) := Challenged(srv, s, h, random);
            At(srv, s', h, random, entry, CLIENTCHALLENGE) && ChallengeAnswered(srv, h, random, reply)
  {
  }

  lemma ThirdPhase(srv: Server, s: State, h: Honest, random: (Bytes, Bytes), entry: nat, challengeReply: Bytes)
    requires |h.salt| >= 32 && At(srv, s, h, random, entry, CLIENTCHALLENGE) && Library(srv.crypto)
    requires random.0 != [] && ChallengeAnswered(srv, h, random, challengeReply)
    ensures var (s', reply) := Answered(srv, s, h, challengeReply);
            At(srv, s', h, random, entry, SERVERCHALLENGERESP)
                && reply == random.0 + srv.crypto.sign(srv.pkey, random.0)
  {
    var plain := srv.crypto.decrypt(KeyOf(srv, h), challengeReply);
    assert plain[HASH_LENGTH..] == random.1;
  }

  lemma FourthPhase(srv: Server, s: State, h: Honest, random: (Bytes, Bytes), entry: nat)
    requires |h.salt| >= 32 && At(srv, s, h, random, entry, SERVERCHALLENGERESP) && |h.secret| == 16
    requires Matching(srv.crypto, h.cert, h.pkey)
    ensures var s' := Serve(srv, s, ClientPairingSecret(h.uid, SecretOf(srv, h))).0;
            s'.sessions == s.sessions - {h.uid} && s'.authorized == s.authorized + [Client(entry, h.cert, NameOf(h))]
  {
    var secret := SecretOf(srv, h);
    assert secret[..16] == h.secret && secret[16..] == srv.crypto.sign(h.pkey, h.secret);
  }

  lemma {:induction false} TrustEarned(srv: Server, h: Honest, random: (Bytes, Bytes), challengeReply: Bytes)
    requires |h.salt| >= 32 && |random.0| == 16 && Library(srv.crypto) && Matching(srv.crypto, srv.cert, srv.pkey)
    requires ChallengeAnswered(srv, h, random, challengeReply)
    ensures TrustsServer(srv, h, srv.cert, challengeReply, random.0 + srv.crypto.sign(srv.pkey, random.0))
  {
    var secretReply := random.0 + srv.crypto.sign(srv.pkey, random.0);
    var hash := srv.crypto.hash(h.challenge + srv.crypto.certSignature(srv.cert) + random.0);
    assert secretReply[..16] == random.0 && secretReply[16..] == srv.crypto.sign(srv.pkey, random.0);
    assert (hash + random.1)[..HASH_LENGTH] == hash;
  }

  /** With the key in its session the client gets through the other three phases. */
  lemma KeyedClientPairs(srv: Server, s: State, h: Honest, random: (Bytes, Bytes), m: Meanwhile, entry: nat)
    requires Sound(srv, h, random) && Undisturbed(srv, s, h, random, m)
    requires At(srv, PinEntered(srv, s, h, m).0, h, random, entry, GETSERVERCERT)
    requires PinEntered(srv, s, h, m).1 == Some(srv.cert)
    ensures var (s', trusts) := Pair(srv, s, h, random, m);
            Accepted(s', trusts, h, entry)
  {
    var (s1, serverCert) := PinEntered(srv, s, h, m);
    AtOthers(srv, s1, h, random, entry, GETSERVERCERT, m.keyed);
    SecondPhase(srv, Run(srv, s1, m.keyed), h, random, entry);
    var (s2, challengeReply) := Challenged(srv, Run(srv, s1, m.keyed), h, random);
    AtOthers(srv, s2, h, random, entry, CLIENTCHALLENGE, m.challenged);
    ThirdPhase(srv, Run(srv, s2, m.challenged), h, random, entry, challengeReply);
    var (s3, secretReply) := Answered(srv, Run(srv, s2, m.challenged), h, challengeReply);
    AtOthers(srv, s3, h, random, entry, SERVERCHALLENGERESP, m.answered);
    FourthPhase(srv, Run(srv, s3, m.answered), h, random, entry);
    TrustEarned(srv, h, random, challengeReply);
  }

  // When the client gets no certificate.

  /** No client has been authorized for this entry, and only the session of `uid` can still lead to one. */
  ghost predicate Unpaired(srv: Server, s: State, uid: string, entry: nat) {
    Inv(srv, s) && NotYet(s, uid, entry)
  }

  /** A phase on the session of `v`: no new sessions, and nobody but `v` is authorized. */
  ghost predicate Local(s: State, s': State, v: string)
    requires v in s.sessions
  {
    && s'.entries == s.entries
    && (forall u :: u in s'.sessions ==> u in s.sessions && s'.sessions[u].entry == s.sessions[u].entry)
    && (s'.authorized == s.authorized
        || exists c: Client :: c.entry == s.sessions[v].entry && s'.authorized == s.authorized + [c])
  }

  lemma PhasesLocal(srv: Server, s: State, r: Request, v: string)
    requires Target(s, r) == Some(v) && v in s.sessions && !r.GetServerCert?
    ensures Local(s, Serve(srv, s, r).0, v)
  {
    var s', c := Serve(srv, s, r).0, Client(s.sessions[v].entry, s.sessions[v].cert, s.sessions[v].name);
    assert s'.authorized == s.authorized || s'.authorized == s.authorized + [c];
  }

  lemma CertLocal(srv: Server, s: State, v: string, pin: string)
    requires v in s.sessions
    ensures Local(s, ServerCertPhase(srv, s, v, pin).0, v)
  {
  }

  ghost predicate NotYet(s: State, uid: string, entry: nat) {
    && entry < s.entries
    && (forall i :: 0 <= i < |s.authorized| ==> s.authorized[i].entry != entry)
    && (forall v :: v in s.sessions && s.sessions[v].entry == entry ==> v == uid)
  }

  lemma LocalNotYet(s: State, s': State, v: string, uid: string, entry: nat)
    requires v in s.sessions && v != uid && Local(s, s', v) && NotYet(s, uid, entry)
    ensures NotYet(s', uid, entry)
  {
  }

  lemma OpenedNotYet(s: State, v: string, cert: Bytes, salt: string, order: seq<string>, uid: string, entry: nat)
    requires NotYet(s, uid, entry)
    ensures NotYet(Opened(s, v, cert, salt, order), uid, entry)
  {
  }

  lemma UnpairedStep(srv: Server, s: State, r: Request, uid: string, entry: nat)
    requires Unpaired(srv, s, uid, entry) && Target(s, r) != Some(uid)
    ensures Unpaired(srv, Serve(srv, s, r).0, uid, entry)
  {
    ServeKeeps(srv, s, r);
    if r.GetServerCert? {
      var begun := Opened(s, r.uid, r.cert, r.salt, r.order);
      OpenedNotYet(s, r.uid, r.cert, r.salt, r.order, uid, entry);
      if r.typedPin.Some? {
        CertLocal(srv, begun, r.uid, r.typedPin.value);
        LocalNotYet(begun, ServerCertPhase(srv, begun, r.uid, r.typedPin.value).0, r.uid, uid, entry);
      }
    } else if Target(s, r).Some? && Target(s, r).value in s.sessions {
      PhasesLocal(srv, s, r, Target(s, r).value);
      LocalNotYet(s, Serve(srv, s, r).0, Target(s, r).value, uid, entry);
    }
  }

  lemma {:induction false} UnpairedRun(srv: Server, s: State, others: seq<Request>, uid: string, entry: nat)
    requires Unpaired(srv, s, uid, entry) && Calm(srv, s, others, uid)
    ensures Unpaired(srv, Run(srv, s, others), uid, entry)
    decreases |others|
  {
    if others != [] {
      UnpairedRun(srv, s, others[..|others| - 1], uid, entry);
      UnpairedStep(srv, Run(srv, s, others[..|others| - 1]), others[|others| - 1], uid, entry);
    }
  }

  lemma RemoveUnpaired(srv: Server, s: State, uid: string, entry: nat)
    requires Unpaired(srv, s, uid, entry)
    ensures Unpaired(srv, Remove(s, uid), uid, entry)
  {
    FailKeeps(srv, s, uid);
  }

  /** The client's own request authorizes nobody, and fails on a session that has had its PIN. */
  lemma FirstUnpaired(srv: Server, s: State, h: Honest, order: seq<string>)
    requires Inv(srv, s)
    ensures var s' := Serve(srv, s, CertRequest(h, order)).0;
            && (h.typed ==> Unstarted(s, h) || s' == Remove(s, h.uid))
            && (!h.typed || !Unstarted(s, h) ==> Unpaired(srv, s', h.uid, EntryOf(s, h)))
            && (!h.typed ==> h.uid in s'.sessions && (Unstarted(s, h) <==> s'.sessions[h.uid].lastPhase == NONE))
  {
    var r := CertRequest(h, order);
    ServeKeeps(srv, s, r);
    if h.typed && !Unstarted(s, h) {
      OutOfOrderRemoves(srv, s, r, h.uid);
      RemoveUnpaired(srv, s, h.uid, EntryOf(s, h));
    }
  }

  /** A PIN for a session that has had one, and the PIN of another session, authorize nobody. */
  lemma PinUnpaired(srv: Server, s: State, h: Honest, entry: nat)
    requires Unpaired(srv, s, h.uid, entry) && Digits(h.pin) && h.uid in s.sessions
    requires Front(s) == Some(h.uid) ==> s.sessions[h.uid].lastPhase != NONE
    ensures var (s', reply) := Serve(srv, s, Pin(h.pin, h.name));
            && Unpaired(srv, s', h.uid, entry)
            && (Front(s) == Some(h.uid) ==> h.uid !in s'.sessions && Certificate(reply).None?)
            && (Front(s) != Some(h.uid) ==> h.uid in s'.sessions)
  {
    var r := Pin(h.pin, h.name);
    if Front(s) == Some(h.uid) {
      OutOfOrderRemoves(srv, s, r, h.uid);
      RemoveUnpaired(srv, s, h.uid, entry);
    } else {
      OthersUntouched(srv, s, r, h.uid);
      UnpairedStep(srv, s, r, h.uid, entry);
    }
  }

  /** Without the certificate: nobody is authorized, and the session stays if nobody has sent it a PIN. */
  lemma UncertifiedClient(srv: Server, s: State, h: Honest, random: (Bytes, Bytes), m: Meanwhile)
    requires Inv(srv, s) && Sound(srv, h, random) && Undisturbed(srv, s, h, random, m)
    requires Unstarted(s, h) ==> !h.typed && Front(AtPin(srv, s, h, m)) != Some(h.uid)
    ensures var s' := Pair(srv, s, h, random, m).0;
            && !Authorized(s', EntryOf(s, h))
            && (h.uid in s'.sessions <==> !h.typed && Front(AtPin(srv, s, h, m)) != Some(h.uid))
  {
    var asked, entry := Serve(srv, s, CertRequest(h, m.order)).0, EntryOf(s, h);
    FirstUnpaired(srv, s, h, m.order);
    RunOthers(srv, asked, m.asked, h.uid);
    UnpairedRun(srv, asked, m.asked, h.uid, entry);
    if h.typed {
      OutOfOrderRemoves(srv, s, CertRequest(h, m.order), h.uid);
    } else {
      PinUnpaired(srv, AtPin(srv, s, h, m), h, entry);
    }
    var s1 := PinEntered(srv, s, h, m).0;
    RunOthers(srv, s1, m.keyed, h.uid);
    UnpairedRun(srv, s1, m.keyed, h.uid, entry);
  }

  ghost predicate Authorized(s: State, entry: nat) {
    exists i :: 0 <= i < |s.authorized| && s.authorized[i].entry == entry
  }

  /**
   An honest client with the right PIN, undisturbed while others pair, is authorized if and only if no earlier
   attempt has left its session with a PIN, and its session is at the start of the map when the PIN is entered
   or the PIN is typed at the terminal. It then trusts the server and is authorized under its own certificate
   and name. Its session stays behind just when the PIN goes to another one.
   */
  lemma {:induction false} HonestClientPairs(srv: Server, s: State, h: Honest, random: (Bytes, Bytes), m: Meanwhile)
    requires Inv(srv, s) && OwnSession(s, h) && Sound(srv, h, random) && Undisturbed(srv, s, h, random, m)
    ensures var (s', trusts) := Pair(srv, s, h, random, m);
            var reached := h.typed || Front(AtPin(srv, s, h, m)) == Some(h.uid);
            && (Authorized(s', EntryOf(s, h)) <==> Unstarted(s, h) && reached)
            && (h.uid in s'.sessions <==> !reached)
            && (Authorized(s', EntryOf(s, h)) ==>
                  trusts && s'.authorized[|s'.authorized| - 1] == Client(EntryOf(s, h), h.cert, NameOf(h)))
  {
    if Unstarted(s, h) && (h.typed || Front(AtPin(srv, s, h, m)) == Some(h.uid)) {
      CertifiedClient(srv, s, h, random, m);
      Last(Pair(srv, s, h, random, m).0, EntryOf(s, h));
    } else {
      UncertifiedClient(srv, s, h, random, m);
    }
  }

  /** What an honest client reaches: trust, and an authorization of its own. */
  ghost predicate Accepted(s: State, trusts: bool, h: Honest, entry: nat) {
    && trusts && h.uid !in s.sessions && s.authorized != []
    && s.authorized[|s.authorized| - 1] == Client(entry, h.cert, NameOf(h))
  }

  lemma CertifiedClient(srv: Server, s: State, h: Honest, random: (Bytes, Bytes), m: Meanwhile)
    requires Inv(srv, s) && OwnSession(s, h) && Sound(srv, h, random) && Undisturbed(srv, s, h, random, m)
    requires Unstarted(s, h) && (h.typed || Front(AtPin(srv, s, h, m)) == Some(h.uid))
    ensures var (s', trusts) := Pair(srv, s, h, random, m);
            Accepted(s', trusts, h, EntryOf(s, h))
  {
    var asked, entry := Serve(srv, s, CertRequest(h, m.order)).0, EntryOf(s, h);
    FirstRequest(srv, s, h, random, m.order);
    AtOthers(srv, asked, h, random, entry, if h.typed then GETSERVERCERT else NONE, m.asked);
    if !h.typed {
      PinReaches(srv, AtPin(srv, s, h, m), h, random, entry);
    }
    KeyedClientPairs(srv, s, h, random, m, entry);
  }

  lemma Last(s: State, entry: nat)
    requires s.authorized != [] && s.authorized[|s.authorized| - 1].entry == entry
    ensures Authorized(s, entry)
  {
  }

  /**
   Two clients ask for a certificate, and the map is walked from the second: it gets the PIN meant for the
   first, which waits in vain and, if it goes on regardless, is turned away.
   */
  lemma PinGoesAstray(srv: Server, a: (string, Bytes, string), b: (string, Bytes, string), pin: string, name: string,
                      challenge: Bytes, random: (Bytes, Bytes))
    requires a.0 != b.0 && |a.2| >= 32 && |b.2| >= 32 && Digits(pin)
    ensures var s1 := Serve(srv, START, GetServerCert(a.0, a.1, a.2, None, [a.0])).0;
            var s2 := Serve(srv, s1, GetServerCert(b.0, b.1, b.2, None, [b.0, a.0])).0;
            var s3 := Serve(srv, s2, Pin(pin, name)).0;
            var (s4, reply) := Serve(srv, s3, ClientChallenge(a.0, challenge, random.0, random.1));
            && reply == FAILED && a.0 !in s4.sessions && s4.authorized == []
            && b.0 in s4.sessions && s4.sessions[b.0].cipherKey == Some(srv.crypto.key(b.2[..32], pin))
  {
    assert START.sessions.Keys + {a.0} == {a.0} && IsOrder([a.0], {a.0});
    var s1 := Serve(srv, START, GetServerCert(a.0, a.1, a.2, None, [a.0])).0;
    assert s1.sessions.Keys + {b.0} == {a.0, b.0};
    assert [b.0, a.0][0] == b.0 && [b.0, a.0][1] == a.0;
    assert IsOrder([b.0, a.0], {a.0, b.0});
  }

  /**
   One client alone: it gets its PIN, drops out, and asks again. Its session is at the start of the map, but it
   has had a PIN, so the right PIN ends it and the client is turned away.
   */
  lemma RetryTurnedAway(srv: Server, uid: string, cert: Bytes, salt: string, salt': string, pin: string, pin': string,
                        name: string)
    requires |salt| >= 32 && |salt'| >= 32 && Digits(pin) && Digits(pin')
    ensures var s1 := Serve(srv, START, GetServerCert(uid, cert, salt, None, [uid])).0;
            var s2 := Serve(srv, s1, Pin(pin, name)).0;
            var s3 := Serve(srv, s2, GetServerCert(uid, cert, salt', None, [uid])).0;
            var (s4, reply) := Serve(srv, s3, Pin(pin', name));
            && Front(s3) == Some(uid) && s3.sessions[uid].cert == cert && s3.sessions[uid].salt == salt'
            && reply == FAILED && uid !in s4.sessions && s4.authorized == []
  {
    assert START.sessions.Keys + {uid} == {uid} && IsOrder([uid], {uid});
  }
}
