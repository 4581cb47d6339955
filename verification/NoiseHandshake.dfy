/**
 The Noise_IKpsk2 handshake of WireGuard: the initiation and the response as each side builds
 and consumes them, over uninterpreted primitives of which only two laws are used, that
 Diffie-Hellman commutes and that opening undoes sealing.  The key derivation is the one of
 section 2.3 of RFC 5869, the pattern the one of sections 7.5 and 9 of the Noise Protocol
 Framework.
 */
module NoiseHandshake {
  import opened Maybe

  type Bytes = seq<nat>

  /** The primitives.  Public and Dh give nothing where the source's curve25519 reports a zero point. */
  datatype Crypto = Crypto(
    Hash: Bytes -> Bytes,
    Hmac: (Bytes, Bytes) -> Bytes,
    Public: Bytes -> Option<Bytes>,
    Dh: (Bytes, Bytes) -> Option<Bytes>,
    Seal: (Bytes, Bytes, Bytes) -> Bytes,
    Open: (Bytes, Bytes, Bytes) -> Option<Bytes>)

  ghost predicate DhCommutes(c: Crypto) {
    forall a, b :: c.Public(a).Some? && c.Public(b).Some? ==>
      c.Dh(a, c.Public(b).value) == c.Dh(b, c.Public(a).value)
  }

  ghost predicate OpenUndoesSeal(c: Crypto) {
    forall key, ad, plain :: c.Open(key, ad, c.Seal(key, ad, plain)) == Some(plain)
  }

  ghost predicate Laws(c: Crypto) { DhCommutes(c) && OpenUndoesSeal(c) }

  // ---------------------------------------------------------------- symmetric state

  datatype Sym = Sym(ck: Bytes, hash: Bytes)

  function Ascii(s: string): Bytes { seq(|s|, i requires 0 <= i < |s| => s[i] as nat) }

  const HANDSHAKE_NAME := "Noise_IKpsk2_25519_ChaChaPoly_BLAKE2s"
  const IDENTIFIER_NAME := "WireGuard v1 zx2c4 Jason@zx2c4.com"

  /** kdf(): extract with the chaining key, then expand up to three outputs. */
  function Kdf(c: Crypto, data: Bytes, ck: Bytes): (Bytes, Bytes, Bytes) {
    var secret := c.Hmac(ck, data);
    var first := c.Hmac(secret, [1]);
    var second := c.Hmac(secret, first + [2]);
    (first, second, c.Hmac(secret, second + [3]))
  }

  function MixHash(c: Crypto, s: Sym, data: Bytes): Sym { s.(hash := c.Hash(s.hash + data)) }

  /** handshake_init() */
  function Start(c: Crypto, responderStatic: Bytes): Sym {
    var ck := c.Hash(Ascii(HANDSHAKE_NAME));
    MixHash(c, Sym(ck, c.Hash(ck + Ascii(IDENTIFIER_NAME))), responderStatic)
  }

  /** message_ephemeral() */
  function MixEphemeral(c: Crypto, s: Sym, e: Bytes): Sym {
    var s' := MixHash(c, s, e);
    s'.(ck := Kdf(c, e, s.ck).0)
  }

  /** mix_dh() and mix_precomputed_dh(), on a shared secret that may be missing */
  function MixShared(c: Crypto, s: Sym, shared: Option<Bytes>): Option<(Sym, Bytes)> {
    if shared.None? then None
    else
      var k := Kdf(c, shared.value, s.ck);
      Some((s.(ck := k.0), k.1))
  }

  /** mix_psk() */
  function MixPsk(c: Crypto, s: Sym, psk: Bytes): (Sym, Bytes) {
    var k := Kdf(c, psk, s.ck);
    (MixHash(c, s.(ck := k.0), k.1), k.2)
  }

  /** message_encrypt() */
  function Encrypt(c: Crypto, s: Sym, key: Bytes, plain: Bytes): (Sym, Bytes) {
    var ct := c.Seal(key, s.hash, plain);
    (MixHash(c, s, ct), ct)
  }

  /** message_decrypt() */
  function Decrypt(c: Crypto, s: Sym, key: Bytes, ct: Bytes): Option<(Sym, Bytes)> {
    var plain := c.Open(key, s.hash, ct);
    if plain.None? then None else Some((MixHash(c, s, ct), plain.value))
  }

  // ---------------------------------------------------------------- messages and state

  datatype Initiation = Initiation(sender: nat, ephemeral: Bytes, encStatic: Bytes, encTimestamp: Bytes)

  datatype Response = Response(sender: nat, receiver: nat, ephemeral: Bytes, encNothing: Bytes)

  datatype Identity = Identity(secret: Bytes, public: Bytes)

  datatype Phase = Zeroed | CreatedInitiation | ConsumedInitiation | CreatedResponse | ConsumedResponse

  /** struct noise_handshake; staticStatic is None where the source has zeroes. */
  datatype Handshake = Handshake(
    phase: Phase, sym: Sym, ephemeral: Bytes, remoteEphemeral: Bytes, remoteIndex: nat,
    remoteStatic: Bytes, psk: Bytes, staticStatic: Option<Bytes>, latest: Bytes, lastConsumption: int)

  const NSEC_PER_SEC := 1_000_000_000
  const INITIATIONS_PER_SECOND := 50

  /** memcmp() < 0 on strings of one length */
  predicate Less(a: Bytes, b: Bytes) {
    if a == [] || b == [] then a == [] && b != []
    else a[0] < b[0] || (a[0] == b[0] && Less(a[1..], b[1..]))
  }

  lemma {:induction false} LessIrreflexive(a: Bytes)
    ensures !Less(a, a)
  {
    if a == [] {
    } else {
      LessIrreflexive(a[1..]);
    }
  }

  lemma {:induction false} LessTransitive(a: Bytes, b: Bytes, c: Bytes)
    requires Less(a, b) && Less(b, c)
    ensures Less(a, c)
  {
    if a == [] {
    } else if a[0] == b[0] == c[0] {
      LessTransitive(a[1..], b[1..], c[1..]);
    }
  }

  lemma {:induction false} LessTotal(a: Bytes, b: Bytes)
    ensures Less(a, b) || a == b || Less(b, a)
  {
    if a == [] || b == [] {
    } else if a[0] == b[0] {
      LessTotal(a[1..], b[1..]);
      if a[1..] == b[1..] { assert a == [a[0]] + a[1..] && b == [b[0]] + b[1..]; }
    }
  }

  // ---------------------------------------------------------------- the four messages

  /** The symmetric state of the initiation after e, and after es with the key for the static key. */
  function InitiationKey(c: Crypto, responderStatic: Bytes, e: Bytes, es: Option<Bytes>): Option<(Sym, Bytes)> {
    MixShared(c, MixEphemeral(c, Start(c, responderStatic), e), es)
  }

  /** wg_noise_handshake_create_initiation(): what is left of the handshake on failure is kept too. */
  function CreateInitiation(c: Crypto, me: Option<Identity>, h: Handshake, secret: Bytes, timestamp: Bytes, index: nat)
    : (Option<Initiation>, Handshake)
  {
    if me.None? then (None, h)
    else
      var h1 := h.(sym := Start(c, h.remoteStatic), ephemeral := secret);
      var e := c.Public(secret);
      if e.None? then (None, h1)
      else
        var s2 := MixEphemeral(c, h1.sym, e.value);
        var es := MixShared(c, s2, c.Dh(secret, h.remoteStatic));
        if es.None? then (None, h1.(sym := s2))
        else
          var (s4, encStatic) := Encrypt(c, es.value.0, es.value.1, me.value.public);
          var ss := MixShared(c, s4, h.staticStatic);
          if ss.None? then (None, h1.(sym := s4))
          else
            var (s6, encTimestamp) := Encrypt(c, ss.value.0, ss.value.1, timestamp);
            (Some(Initiation(index, e.value, encStatic, encTimestamp)), h1.(sym := s6, phase := CreatedInitiation))
  }

  /** What the responder reads out of an initiation: whose it is, the state it leads to, and when it was made. */
  datatype Reading = Reading(peer: Bytes, sym: Sym, timestamp: Bytes)

  /** wg_noise_handshake_consume_initiation() up to the locks of the handshake */
  function ReadInitiation(c: Crypto, me: Option<Identity>, peers: map<Bytes, Handshake>,
                          m: Initiation): (r: Option<Reading>)
    ensures r.Some? ==> r.value.peer in peers
  {
    if me.None? then None
    else
      var es := InitiationKey(c, me.value.public, m.ephemeral, c.Dh(me.value.secret, m.ephemeral));
      if es.None? then None
      else
        var identity := Decrypt(c, es.value.0, es.value.1, m.encStatic);
        if identity.None? || identity.value.1 !in peers then None
        else
          var s := identity.value.1;
          var ss := MixShared(c, identity.value.0, peers[s].staticStatic);
          if ss.None? then None
          else
            var t := Decrypt(c, ss.value.0, ss.value.1, m.encTimestamp);
            if t.None? then None else Some(Reading(s, t.value.0, t.value.1))
  }

  /** The tests under the read lock: no replay and no flood. */
  predicate Passes(h: Handshake, timestamp: Bytes, now: int) {
    Less(h.latest, timestamp) && h.lastConsumption + NSEC_PER_SEC / INITIATIONS_PER_SECOND <= now
  }

  /** The writes under the write lock; the timestamp is compared again, but only for its own sake. */
  function Committed(h: Handshake, m: Initiation, r: Reading, now: int): Handshake {
    h.(phase := ConsumedInitiation, sym := r.sym, remoteEphemeral := m.ephemeral, remoteIndex := m.sender,
       latest := if Less(h.latest, r.timestamp) then r.timestamp else h.latest,
       lastConsumption := if h.lastConsumption < now then now else h.lastConsumption)
  }

  /** wg_noise_handshake_consume_initiation() without interference: the peer found and its new handshake state. */
  function ConsumeInitiation(c: Crypto, me: Option<Identity>, peers: map<Bytes, Handshake>, m: Initiation, now: int)
    : Option<(Bytes, Handshake)>
  {
    var r := ReadInitiation(c, me, peers, m);
    if r.None? || !Passes(peers[r.value.peer], r.value.timestamp, now) then None
    else Some((r.value.peer, Committed(peers[r.value.peer], m, r.value, now)))
  }

  /** wg_noise_handshake_create_response() */
  function CreateResponse(c: Crypto, h: Handshake, secret: Bytes, index: nat): (Option<Response>, Handshake) {
    if h.phase != ConsumedInitiation then (None, h)
    else
      var h1 := h.(ephemeral := secret);
      var e := c.Public(secret);
      if e.None? then (None, h1)
      else
        var s2 := MixEphemeral(c, h1.sym, e.value);
        var ee := MixShared(c, s2, c.Dh(secret, h.remoteEphemeral));
        if ee.None? then (None, h1.(sym := s2))
        else
          var se := MixShared(c, ee.value.0, c.Dh(secret, h.remoteStatic));
          if se.None? then (None, h1.(sym := ee.value.0))
          else
            var (s5, key) := MixPsk(c, se.value.0, h.psk);
            var (s6, encNothing) := Encrypt(c, s5, key, []);
            (Some(Response(index, h.remoteIndex, e.value, encNothing)), h1.(sym := s6, phase := CreatedResponse))
  }

  /** wg_noise_handshake_consume_response() between its two locks, on a copy of the handshake */
  function ReadResponse(c: Crypto, me: Option<Identity>, h: Handshake, m: Response): Option<Sym> {
    if me.None? || h.phase != CreatedInitiation then None
    else
      var s2 := MixEphemeral(c, h.sym, m.ephemeral);
      var ee := MixShared(c, s2, c.Dh(h.ephemeral, m.ephemeral));
      if ee.None? then None
      else
        var se := MixShared(c, ee.value.0, c.Dh(me.value.secret, m.ephemeral));
        if se.None? then None
        else
          var (s5, key) := MixPsk(c, se.value.0, h.psk);
          var nothing := Decrypt(c, s5, key, m.encNothing);
          if nothing.None? then None else Some(nothing.value.0)
  }

  /** The test and the writes under the write lock */
  function CommitResponse(h: Handshake, m: Response, sym: Sym): Option<Handshake> {
    if h.phase != CreatedInitiation then None
    else Some(h.(phase := ConsumedResponse, sym := sym, remoteEphemeral := m.ephemeral, remoteIndex := m.sender))
  }

  /** wg_noise_handshake_consume_response() without interference, on the handshake that the receiver index names */
  function ConsumeResponse(c: Crypto, me: Option<Identity>, h: Handshake, m: Response): Option<Handshake> {
    var sym := ReadResponse(c, me, h, m);
    if sym.None? then None else CommitResponse(h, m, sym.value)
  }

  /** The keys of struct noise_keypair */
  datatype Session = Session(initiator: bool, sending: Bytes, receiving: Bytes, remoteIndex: nat)

  /** handshake_zero() */
  function Zero(h: Handshake): Handshake {
    h.(phase := Zeroed, sym := Sym(Zeroes(), Zeroes()), ephemeral := Zeroes(), remoteEphemeral := Zeroes(),
      remoteIndex := 0)
  }

  function Zeroes(): Bytes { seq(32, i => 0) }

  /** wg_noise_handshake_begin_session(), given whether a keypair could be created and whether the peer is dead */
  function BeginSession(c: Crypto, h: Handshake, created: bool, dead: bool): (Option<Session>, Handshake) {
    if (h.phase != CreatedResponse && h.phase != ConsumedResponse) || !created then (None, h)
    else
      var (first, second, _) := Kdf(c, [], h.sym.ck);
      var initiator := h.phase == ConsumedResponse;
      var session := if initiator then Session(true, first, second, h.remoteIndex)
        else Session(false, second, first, h.remoteIndex);
      (if dead then None else Some(session), Zero(h))
  }

  // ---------------------------------------------------------------- agreement

  /** Two sides that know each other: keys match, and each has precomputed the static secret. */
  ghost predicate Acquainted(c: Crypto, a: Identity, ha: Handshake, b: Identity, hb: Handshake) {
    && c.Public(a.secret) == Some(a.public) && c.Public(b.secret) == Some(b.public)
    && ha.remoteStatic == b.public && hb.remoteStatic == a.public && ha.psk == hb.psk
    && ha.staticStatic == c.Dh(a.secret, b.public) && hb.staticStatic == c.Dh(b.secret, a.public)
  }

  /** The responder reads out of an initiation what the initiator put in. */
  lemma InitiationUnderstood(c: Crypto, a: Identity, ha: Handshake, b: Identity, hb: Handshake,
                             secret: Bytes, timestamp: Bytes, index: nat, peers: map<Bytes, Handshake>, now: int)
    requires Laws(c) && Acquainted(c, a, ha, b, hb) && a.public in peers && peers[a.public] == hb
    requires CreateInitiation(c, Some(a), ha, secret, timestamp, index).0.Some?
    requires Less(hb.latest, timestamp) && hb.lastConsumption + NSEC_PER_SEC / INITIATIONS_PER_SECOND <= now
    ensures var (m, ha') := CreateInitiation(c, Some(a), ha, secret, timestamp, index);
            var r := ConsumeInitiation(c, Some(b), peers, m.value, now);
            && r.Some? && r.value.0 == a.public && r.value.1.sym == ha'.sym && r.value.1.latest == timestamp
            && r.value.1.phase == ConsumedInitiation && r.value.1.remoteIndex == index
            && r.value.1.remoteEphemeral == m.value.ephemeral && c.Public(ha'.ephemeral) == Some(m.value.ephemeral)
            && ha'.phase == CreatedInitiation
  {
    var e := c.Public(secret).value;
    assert c.Dh(b.secret, e) == c.Dh(secret, b.public);
    assert ha.staticStatic == hb.staticStatic;
    var es := InitiationKey(c, b.public, e, c.Dh(secret, b.public)).value;
    var (s4, encStatic) := Encrypt(c, es.0, es.1, a.public);
    assert c.Open(es.1, es.0.hash, encStatic) == Some(a.public);
    var ss := MixShared(c, s4, ha.staticStatic).value;
    assert c.Open(ss.1, ss.0.hash, c.Seal(ss.1, ss.0.hash, timestamp)) == Some(timestamp);
  }

  /** The initiator reads out of a response to its initiation what the responder put in. */
  lemma ResponseUnderstood(c: Crypto, a: Identity, ha: Handshake, b: Identity, hb: Handshake, secret: Bytes, index: nat)
    requires Laws(c) && Acquainted(c, a, ha, b, hb)
    requires ha.phase == CreatedInitiation && hb.phase == ConsumedInitiation && ha.sym == hb.sym
    requires c.Public(ha.ephemeral) == Some(hb.remoteEphemeral)
    requires CreateResponse(c, hb, secret, index).0.Some?
    ensures var (m, hb') := CreateResponse(c, hb, secret, index);
            var r := ConsumeResponse(c, Some(a), ha, m.value);
            && r.Some? && r.value.sym == hb'.sym && r.value.phase == ConsumedResponse && hb'.phase == CreatedResponse
            && r.value.remoteIndex == index && hb'.remoteIndex == hb.remoteIndex == m.value.receiver
  {
    var e := c.Public(secret).value;
    assert c.Dh(ha.ephemeral, e) == c.Dh(secret, hb.remoteEphemeral);
    assert c.Dh(a.secret, e) == c.Dh(secret, a.public);
    var s2 := MixEphemeral(c, hb.sym, e);
    var ee := MixShared(c, s2, c.Dh(secret, hb.remoteEphemeral)).value;
    var se := MixShared(c, ee.0, c.Dh(secret, a.public)).value;
    var (s5, key) := MixPsk(c, se.0, hb.psk);
    assert c.Open(key, s5.hash, c.Seal(key, s5.hash, [])) == Some([]);
  }

  /**
   A full exchange ends in agreement: if both sides manage to build their messages, both are
   understood, hash and chaining key are equal, and each side sends with what the other receives with.
   */
  lemma Agreement(c: Crypto, a: Identity, ha: Handshake, b: Identity, hb: Handshake, peers: map<Bytes, Handshake>,
                  secretA: Bytes, secretB: Bytes, timestamp: Bytes, indexA: nat, indexB: nat, now: int)
    requires Laws(c) && Acquainted(c, a, ha, b, hb) && a.public in peers && peers[a.public] == hb
    requires Less(hb.latest, timestamp) && hb.lastConsumption + NSEC_PER_SEC / INITIATIONS_PER_SECOND <= now
    requires CreateInitiation(c, Some(a), ha, secretA, timestamp, indexA).0.Some?
    ensures var (m1, ha1) := CreateInitiation(c, Some(a), ha, secretA, timestamp, indexA);
            var r1 := ConsumeInitiation(c, Some(b), peers, m1.value, now);
            && r1.Some? && r1.value.0 == a.public && r1.value.1.sym == ha1.sym
            && var (m2, hb2) := CreateResponse(c, r1.value.1, secretB, indexB);
               m2.Some? ==>
                 var r2 := ConsumeResponse(c, Some(a), ha1, m2.value);
                 && r2.Some? && r2.value.sym == hb2.sym
                 && var (sa, sb) := (BeginSession(c, r2.value, true, false).0, BeginSession(c, hb2, true, false).0);
                    && sa.Some? && sb.Some? && sa.value.initiator && !sb.value.initiator
                    && sa.value.sending == sb.value.receiving && sa.value.receiving == sb.value.sending
                    && sa.value.remoteIndex == indexB && sb.value.remoteIndex == indexA
  {
    InitiationUnderstood(c, a, ha, b, hb, secretA, timestamp, indexA, peers, now);
    var (m1, ha1) := CreateInitiation(c, Some(a), ha, secretA, timestamp, indexA);
    var hb1 := ConsumeInitiation(c, Some(b), peers, m1.value, now).value.1;
    var (m2, hb2) := CreateResponse(c, hb1, secretB, indexB);
    if m2.Some? {
      ResponseUnderstood(c, a, ha1, b, hb1, secretB, indexB);
    }
  }
}
