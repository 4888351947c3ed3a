/**
 The pairing sessions as the server keeps them: objects in a map, which the handlers of the four phases write to.
 */
module PairServer {

  import opened Wrappers
  import opened Pairing

  class PairSession {
    const uniqueID: string
    const entry: nat
    var cert: Bytes
    var name: string
    var cipherKey: Option<Bytes>
    var clientHash: Bytes
    var serverSecret: Bytes
    var serverChallenge: Bytes
    var salt: string
    var lastPhase: Phase

    constructor (uniqueID: string, entry: nat, cert: Bytes)
      ensures this.uniqueID == uniqueID && this.entry == entry
      ensures View() == Session(entry, cert, [], None, [], [], [], [], NONE)
    {
      this.uniqueID, this.entry, this.cert := uniqueID, entry, cert;
      name, cipherKey, clientHash, serverSecret, serverChallenge, salt, lastPhase := [], None, [], [], [], [], NONE;
    }

    ghost function View(): Session
      reads this
    {
      Session(entry, cert, name, cipherKey, clientHash, serverSecret, serverChallenge, salt, lastPhase)
    }
  }

  class PairServer {
    const srv: Server
    var mapIdSess: map<string, PairSession>
    var order: seq<string>                 // the order in which the map is walked
    var authorized: seq<Client>
    ghost var history: seq<Done>
    var entries: nat

    ghost predicate Valid()
      reads this, mapIdSess.Values
    {
      forall u :: u in mapIdSess ==> mapIdSess[u].uniqueID == u
    }

    ghost predicate Has(sess: PairSession)
      reads this
    {
      sess.uniqueID in mapIdSess && mapIdSess[sess.uniqueID] == sess
    }

    ghost function View(): State
      reads this, mapIdSess.Values
    {
      State(map u | u in mapIdSess :: mapIdSess[u].View(), order, authorized, history, entries)
    }

    constructor (srv: Server)
      ensures this.srv == srv && Valid() && View() == START && fresh(mapIdSess.Values)
    {
      this.srv := srv;
      mapIdSess, order, authorized, history, entries := map[], [], [], [], 0;
    }

    /** Writing to one session changes that session's entry. */
    twostate lemma Written(sess: PairSession)
      requires old(Valid() && Has(sess)) && mapIdSess == old(mapIdSess)
      requires forall u :: u in mapIdSess && u != sess.uniqueID ==> mapIdSess[u].View() == old(mapIdSess[u].View())
      ensures View().sessions == old(View()).sessions[sess.uniqueID := sess.View()]
    {
    }

    /** Taking a session out of the map leaves the others, whatever was written to it before. */
    twostate lemma Removed(sess: PairSession)
      requires old(Valid() && Has(sess)) && mapIdSess == old(mapIdSess) - {sess.uniqueID}
      requires forall u :: u in mapIdSess ==> mapIdSess[u].View() == old(mapIdSess[u].View())
      ensures View().sessions == old(View()).sessions - {sess.uniqueID}
    {
    }

    method RemoveSession(sess: PairSession)
      requires Valid() && Has(sess)
      modifies `mapIdSess, `order
      ensures Valid() && mapIdSess == old(mapIdSess) - {sess.uniqueID} && order == Without(old(order), sess.uniqueID)
    {
      mapIdSess := mapIdSess - {sess.uniqueID};
      order := Without(order, sess.uniqueID);
    }

    method FailPair(sess: PairSession) returns (reply: Reply)
      requires Valid() && Has(sess)
      modifies `mapIdSess, `order
      ensures Valid() && mapIdSess == old(mapIdSess) - {sess.uniqueID} && order == Without(old(order), sess.uniqueID)
      ensures reply == FAILED
    {
      RemoveSession(sess);
      reply := FAILED;
    }

    method GetServerCert(sess: PairSession, pin: string) returns (reply: Reply)
      requires Valid() && Has(sess)
      modifies `mapIdSess, `order, `history, sess
      ensures Valid() && mapIdSess == if reply == FAILED then old(mapIdSess) - {sess.uniqueID} else old(mapIdSess)
      ensures (View(), reply) == ServerCertPhase(srv, old(View()), sess.uniqueID, pin)
    {
      if sess.lastPhase != NONE {
        reply := FailPair(sess);
        Removed(sess);
        return;
      }
      sess.lastPhase := GETSERVERCERT;
      if |sess.salt| < 32 {
        reply := FailPair(sess);
        Removed(sess);
        return;
      }
      var salt := sess.salt[..32];
      sess.cipherKey := Some(srv.crypto.key(salt, pin));
      history := history + [DoneCert(sess.entry, salt, pin)];
      reply := Reply(200, Some(true), srv.cert);
      Written(sess);
    }

    method ClientChallenge(sess: PairSession, challenge: Bytes, randomSecret: Bytes, randomChallenge: Bytes)
      returns (reply: Reply)
      requires Valid() && Has(sess)
      modifies `mapIdSess, `order, `history, sess
      ensures Valid() && mapIdSess == if reply == FAILED then old(mapIdSess) - {sess.uniqueID} else old(mapIdSess)
      ensures (View(), reply)
              == ChallengePhase(srv, old(View()), sess.uniqueID, challenge, randomSecret, randomChallenge)
    {
      if sess.lastPhase != GETSERVERCERT {
        reply := FailPair(sess);
        Removed(sess);
        return;
      }
      sess.lastPhase := CLIENTCHALLENGE;
      if sess.cipherKey.None? {
        reply := FailPair(sess);
        Removed(sess);
        return;
      }
      var key := sess.cipherKey.value;
      var decrypted := srv.crypto.decrypt(key, challenge);
      decrypted := decrypted + srv.crypto.certSignature(srv.cert) + randomSecret;
      var hash := srv.crypto.hash(decrypted);
      var encrypted := srv.crypto.encrypt(key, hash + randomChallenge);
      sess.serverSecret := randomSecret;
      sess.serverChallenge := randomChallenge;
      history := history + [DoneChallenge(sess.entry, challenge, randomSecret, randomChallenge)];
      reply := Reply(200, Some(true), encrypted);
      Written(sess);
      assert old(View()).sessions[sess.uniqueID] == old(sess.View());
    }

    method ServerChallengeResp(sess: PairSession, response: Bytes) returns (reply: Reply)
      requires Valid() && Has(sess)
      modifies `mapIdSess, `order, `history, sess
      ensures Valid() && mapIdSess == if reply == FAILED then old(mapIdSess) - {sess.uniqueID} else old(mapIdSess)
      ensures (View(), reply) == ResponsePhase(srv, old(View()), sess.uniqueID, response)
    {
      if sess.lastPhase != CLIENTCHALLENGE {
        reply := FailPair(sess);
        Removed(sess);
        return;
      }
      sess.lastPhase := SERVERCHALLENGERESP;
      if sess.cipherKey.None? || sess.serverSecret == [] {
        reply := FailPair(sess);
        Removed(sess);
        return;
      }
      sess.clientHash := srv.crypto.decrypt(sess.cipherKey.value, response);
      var serverSecret := sess.serverSecret;
      serverSecret := serverSecret + srv.crypto.sign(srv.pkey, serverSecret);
      history := history + [DoneResponse(sess.entry, response)];
      reply := Reply(200, Some(true), serverSecret);
      Written(sess);
    }

    method ClientPairingSecret(sess: PairSession, pairingSecret: Bytes) returns (reply: Reply)
      requires Valid() && Has(sess)
      modifies `mapIdSess, `order, `history, `authorized, sess
      ensures Valid() && mapIdSess == old(mapIdSess) - {sess.uniqueID}
      ensures (View(), reply) == SecretPhase(srv, old(View()), sess.uniqueID, pairingSecret)
    {
      if sess.lastPhase != SERVERCHALLENGERESP {
        reply := FailPair(sess);
        Removed(sess);
        return;
      }
      sess.lastPhase := CLIENTPAIRINGSECRET;
      if |pairingSecret| <= 16 {
        reply := FailPair(sess);
        Removed(sess);
        return;
      }
      var secret, sign := pairingSecret[..16], pairingSecret[16..];
      if !srv.crypto.validCert(sess.cert) {
        reply := FailPair(sess);
        Removed(sess);
        return;
      }
      var hash := srv.crypto.hash(sess.serverChallenge + srv.crypto.certSignature(sess.cert) + secret);
      var sameHash := hash == sess.clientHash;
      var verify := srv.crypto.verify(sess.cert, secret, sign);
      if sameHash && verify {
        reply := Reply(200, Some(true), []);
        authorized := authorized + [Client(sess.entry, sess.cert, sess.name)];
        history := history + [DoneSecret(sess.entry, pairingSecret)];
      } else {
        reply := Reply(200, Some(false), []);
      }
      RemoveSession(sess);
      Removed(sess);
    }

    /** An insertion; `walk` is how the table may be walked from now on. */
    method AddSession(uid: string, cert: Bytes, walk: seq<string>) returns (sess: PairSession)
      requires Valid() && uid !in mapIdSess
      modifies this
      ensures Valid() && fresh(sess) && sess.uniqueID == uid && mapIdSess == old(mapIdSess)[uid := sess]
      ensures View() == Opened(old(View()), uid, cert, [], walk)
    {
      sess := new PairSession(uid, entries, cert);
      assert old(View()).sessions.Keys == mapIdSess.Keys;
      order := Reordered(order, mapIdSess.Keys + {uid}, uid, walk);
      mapIdSess := mapIdSess[uid := sess];
      entries := entries + 1;
      Added(sess);
    }

    twostate lemma Added(new sess: PairSession)
      requires old(Valid()) && sess.uniqueID !in old(mapIdSess) && mapIdSess == old(mapIdSess)[sess.uniqueID := sess]
      requires forall u :: u in old(mapIdSess) ==> mapIdSess[u].View() == old(mapIdSess[u].View())
      ensures View().sessions == old(View()).sessions[sess.uniqueID := sess.View()]
    {
    }

    /** The map keeps a session that is already there; the salt is written either way. */
    method Emplace(uid: string, cert: Bytes, salt: string, walk: seq<string>) returns (sess: PairSession)
      requires Valid()
      modifies this, mapIdSess.Values
      ensures Valid() && Has(sess) && sess.uniqueID == uid && fresh(mapIdSess.Values - old(mapIdSess.Values))
      ensures View() == Opened(old(View()), uid, cert, salt, walk)
    {
      if uid in mapIdSess {
        sess := mapIdSess[uid];
      } else {
        sess := AddSession(uid, cert, walk);
      }
      SetSalt(sess, salt);
    }

    method SetSalt(sess: PairSession, salt: string)
      requires Valid() && Has(sess)
      modifies sess
      ensures Valid() && View() == Opened(old(View()), sess.uniqueID, [], salt, [])
    {
      sess.salt := salt;
      Written(sess);
    }

    method SetName(sess: PairSession, name: string)
      requires Valid() && Has(sess)
      modifies sess
      ensures Valid() && View() == Named(old(View()), sess.uniqueID, name)
    {
      sess.name := name;
      Written(sess);
    }

    /** pair */
    method Pair(r: Request) returns (reply: Reply)
      requires Valid() && !r.Pin?
      modifies this, mapIdSess.Values
      ensures Valid() && fresh(mapIdSess.Values - old(mapIdSess.Values))
      ensures (View(), reply) == Serve(srv, old(View()), r)
    {
      if r.GetServerCert? {
        var sess := Emplace(r.uid, r.cert, r.salt, r.order);
        if r.typedPin.Some? {
          reply := GetServerCert(sess, r.typedPin.value);
        } else {
          reply := Deferred;
        }
        return;
      }
      if r.uid !in mapIdSess {
        reply := Reply(400, None, []);
        return;
      }
      var sess := mapIdSess[r.uid];
      match r
      case ClientChallenge(_, challenge, secret, serverChallenge) =>
        reply := ClientChallenge(sess, challenge, secret, serverChallenge);
      case ServerChallengeResp(_, response) => reply := ServerChallengeResp(sess, response);
      case ClientPairingSecret(_, secret) => reply := ClientPairingSecret(sess, secret);
      case Unrecognized(_) => reply := Reply(404, None, []);
    }

    /** pin: it goes to the session at the start of the map */
    method EnterPin(pin: string, name: string) returns (reply: Reply)
      requires Valid() && IsOrder(order, mapIdSess.Keys)
      modifies this, mapIdSess.Values
      ensures Valid() && mapIdSess.Values <= old(mapIdSess.Values)
      ensures (View(), reply) == Serve(srv, old(View()), Pin(pin, name))
    {
      if order == [] {
        reply := Reply(400, None, []);
        return;
      }
      assert order[0] in order && order[0] in mapIdSess.Keys;
      if |pin| != 4 || !Digits(pin) {
        reply := Reply(400, Some(false), []);
        return;
      }
      var sess := mapIdSess[order[0]];
      reply := GetServerCert(sess, pin);
      if reply != FAILED {
        SetName(sess, name);
      }
    }
  }
}
