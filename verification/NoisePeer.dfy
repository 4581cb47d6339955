/**
 The handshake of one peer as the source keeps it: buffers that every token of the pattern
 overwrites in sequence.  Each operation is proved to compute what NoiseHandshake says it does,
 also where it gives up halfway and leaves the buffers as they are by then.
 */
module NoisePeer {
  import opened Maybe
  import opened NoiseHandshake

  class Peer {
    const c: Crypto
    const remoteStatic: Bytes
    const psk: Bytes
    const staticStatic: Option<Bytes>
    var phase: Phase
    var chainingKey: Bytes
    var hash: Bytes
    var ephemeral: Bytes
    var remoteEphemeral: Bytes
    var remoteIndex: nat
    var latest: Bytes
    var lastConsumption: int

    function View(): Handshake
      reads this
    {
      Handshake(phase, Sym(chainingKey, hash), ephemeral, remoteEphemeral, remoteIndex,
                remoteStatic, psk, staticStatic, latest, lastConsumption)
    }

    /** wg_noise_handshake_init() */
    constructor (c: Crypto, remoteStatic: Bytes, psk: Bytes, me: Option<Identity>)
      ensures phase == Zeroed && this.c == c && this.remoteStatic == remoteStatic && this.psk == psk
      ensures staticStatic == if me.None? then None else c.Dh(me.value.secret, remoteStatic)
    {
      this.c, this.remoteStatic, this.psk := c, remoteStatic, psk;
      staticStatic := if me.None? then None else c.Dh(me.value.secret, remoteStatic);
      phase, chainingKey, hash, ephemeral, remoteEphemeral := Zeroed, Zeroes(), Zeroes(), Zeroes(), Zeroes();
      remoteIndex, latest, lastConsumption := 0, seq(12, i => 0), 0;
    }

    method MixHashInPlace(data: Bytes)
      modifies this`hash
      ensures hash == c.Hash(old(hash) + data)
    {
      hash := c.Hash(hash + data);
    }

    /** message_ephemeral() */
    method MessageEphemeral(e: Bytes)
      modifies this`hash, this`chainingKey
      ensures Sym(chainingKey, hash) == MixEphemeral(c, Sym(old(chainingKey), old(hash)), e)
    {
      MixHashInPlace(e);
      chainingKey := Kdf(c, e, chainingKey).0;
    }

    /** mix_dh(), mix_precomputed_dh() */
    method MixDh(shared: Option<Bytes>) returns (key: Option<Bytes>)
      modifies this`chainingKey
      ensures shared.None? ==> key.None? && chainingKey == old(chainingKey)
      ensures shared.Some? ==>
                && key.Some?
                && MixShared(c, Sym(old(chainingKey), hash), shared) == Some((Sym(chainingKey, hash), key.value))
    {
      if shared.None? { return None; }
      var k := Kdf(c, shared.value, chainingKey);
      chainingKey := k.0;
      key := Some(k.1);
    }

    /** message_encrypt() */
    method MessageEncrypt(key: Bytes, plain: Bytes) returns (ct: Bytes)
      modifies this`hash
      ensures (Sym(chainingKey, hash), ct) == Encrypt(c, Sym(chainingKey, old(hash)), key, plain)
    {
      ct := c.Seal(key, hash, plain);
      MixHashInPlace(ct);
    }

    /** wg_noise_handshake_create_initiation() */
    method CreateInitiation(me: Option<Identity>, secret: Bytes, timestamp: Bytes,
                            index: nat) returns (m: Option<Initiation>)
      modifies this
      ensures (m, View()) == NoiseHandshake.CreateInitiation(c, me, old(View()), secret, timestamp, index)
    {
      if me.None? { return None; }
      var start := Start(c, remoteStatic);
      chainingKey, hash := start.ck, start.hash;
      ephemeral := secret;
      var e := c.Public(ephemeral);
      if e.None? { return None; }
      MessageEphemeral(e.value);
      var key := MixDh(c.Dh(ephemeral, remoteStatic));
      if key.None? { return None; }
      var encStatic := MessageEncrypt(key.value, me.value.public);
      key := MixDh(staticStatic);
      if key.None? { return None; }
      var encTimestamp := MessageEncrypt(key.value, timestamp);
      phase := CreatedInitiation;
      return Some(Initiation(index, e.value, encStatic, encTimestamp));
    }

    /** The section of wg_noise_handshake_consume_initiation() under the read lock */
    method CheckInitiation(timestamp: Bytes, now: int) returns (ok: bool)
      ensures ok <==> Passes(View(), timestamp, now)
    {
      var replayAttack := !Less(latest, timestamp);
      var floodAttack := lastConsumption + NSEC_PER_SEC / INITIATIONS_PER_SECOND > now;
      ok := !replayAttack && !floodAttack;
    }

    /** The section under the write lock */
    method CommitInitiation(m: Initiation, sym: Sym, timestamp: Bytes, now: int)
      modifies this
      ensures View() == Committed(old(View()), m, Reading(remoteStatic, sym, timestamp), now)
    {
      remoteEphemeral := m.ephemeral;
      if Less(latest, timestamp) { latest := timestamp; }
      hash, chainingKey := sym.hash, sym.ck;
      remoteIndex := m.sender;
      if lastConsumption < now { lastConsumption := now; }
      phase := ConsumedInitiation;
    }

    /** wg_noise_handshake_consume_initiation() on the peer that the initiation names, without interference */
    method ConsumeInitiation(me: Identity, m: Initiation, now: int) returns (ok: bool)
      modifies this
      ensures var es := InitiationKey(c, me.public, m.ephemeral, c.Dh(me.secret, m.ephemeral));
              var who := if es.None? then None else Decrypt(c, es.value.0, es.value.1, m.encStatic);
              who.Some? ==>
                var r := NoiseHandshake.ConsumeInitiation(c, Some(me), map[who.value.1 := old(View())], m, now);
                && (ok <==> r.Some?)
                && View() == if ok then r.value.1 else old(View())
      ensures !ok ==> View() == old(View())
    {
      var es := InitiationKey(c, me.public, m.ephemeral, c.Dh(me.secret, m.ephemeral));
      if es.None? { return false; }
      var who := Decrypt(c, es.value.0, es.value.1, m.encStatic);
      if who.None? { return false; }
      var ss := MixShared(c, who.value.0, staticStatic);
      if ss.None? { return false; }
      var t := Decrypt(c, ss.value.0, ss.value.1, m.encTimestamp);
      if t.None? { return false; }
      ok := CheckInitiation(t.value.1, now);
      if ok { CommitInitiation(m, t.value.0, t.value.1, now); }
    }

    /** wg_noise_handshake_create_response() */
    method CreateResponse(secret: Bytes, index: nat) returns (m: Option<Response>)
      modifies this
      ensures (m, View()) == NoiseHandshake.CreateResponse(c, old(View()), secret, index)
    {
      if phase != ConsumedInitiation { return None; }
      ephemeral := secret;
      var e := c.Public(ephemeral);
      if e.None? { return None; }
      MessageEphemeral(e.value);
      var key := MixDh(c.Dh(ephemeral, remoteEphemeral));
      if key.None? { return None; }
      key := MixDh(c.Dh(ephemeral, remoteStatic));
      if key.None? { return None; }
      var (s, pskKey) := MixPsk(c, Sym(chainingKey, hash), psk);
      chainingKey, hash := s.ck, s.hash;
      var encNothing := MessageEncrypt(pskKey, []);
      phase := CreatedResponse;
      return Some(Response(index, remoteIndex, e.value, encNothing));
    }

    /** wg_noise_handshake_consume_response() between its locks, on copies of the buffers */
    method ReadResponse(me: Option<Identity>, m: Response) returns (sym: Option<Sym>)
      ensures sym == NoiseHandshake.ReadResponse(c, me, View(), m)
    {
      if me.None? || phase != CreatedInitiation { return None; }
      var s := MixEphemeral(c, Sym(chainingKey, hash), m.ephemeral);
      var ee := MixShared(c, s, c.Dh(ephemeral, m.ephemeral));
      if ee.None? { return None; }
      var se := MixShared(c, ee.value.0, c.Dh(me.value.secret, m.ephemeral));
      if se.None? { return None; }
      var (s5, key) := MixPsk(c, se.value.0, psk);
      var nothing := Decrypt(c, s5, key, m.encNothing);
      if nothing.None? { return None; }
      sym := Some(nothing.value.0);
    }

    /** The section under the write lock, which finds the handshake as anybody may have left it */
    method CommitResponse(m: Response, sym: Sym) returns (ok: bool)
      modifies this
      ensures var r := NoiseHandshake.CommitResponse(old(View()), m, sym);
              (ok <==> r.Some?) && View() == if ok then r.value else old(View())
    {
      if phase != CreatedInitiation { return false; }
      remoteEphemeral := m.ephemeral;
      hash, chainingKey := sym.hash, sym.ck;
      remoteIndex := m.sender;
      phase := ConsumedResponse;
      return true;
    }

    /** wg_noise_handshake_consume_response() without interference */
    method ConsumeResponse(me: Option<Identity>, m: Response) returns (ok: bool)
      modifies this
      ensures var r := NoiseHandshake.ConsumeResponse(c, me, old(View()), m);
              (ok <==> r.Some?) && View() == if ok then r.value else old(View())
    {
      var sym := ReadResponse(me, m);
      if sym.None? { return false; }
      ok := CommitResponse(m, sym.value);
    }

    /** wg_noise_handshake_begin_session() up to the keypair slots */
    method BeginSession(created: bool, dead: bool) returns (r: Option<Session>)
      modifies this
      ensures (r, View()) == NoiseHandshake.BeginSession(c, old(View()), created, dead)
    {
      if phase != CreatedResponse && phase != ConsumedResponse { return None; }
      if !created { return None; }
      var (first, second, _) := Kdf(c, [], chainingKey);
      var initiator := phase == ConsumedResponse;
      var (sending, receiving) := if initiator then (first, second) else (second, first);
      r := Some(Session(initiator, sending, receiving, remoteIndex));
      ephemeral, remoteEphemeral, hash, chainingKey := Zeroes(), Zeroes(), Zeroes(), Zeroes();
      remoteIndex, phase := 0, Zeroed;
      if dead { r := None; }
    }
  }
}
