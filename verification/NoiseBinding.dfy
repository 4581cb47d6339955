/**
 What the handshake messages and the keys are made of.  Chain and Transcript say, without the
 steps of the source, what every key and every hash is a function of; with primitives that do not
 collide, and decryption that succeeds only on what was encrypted under the same key and data, a
 message is understood exactly if everything mixed into it agrees, and equal session keys mean that
 every secret of the two exchanges was the same, the preshared key included.
 */
module NoiseBinding {
  import opened Maybe
  import opened NoiseHandshake

  // ----- primitives without collisions -----

  ghost predicate HmacInjective(c: Crypto) {
    forall k, d, k', d' :: c.Hmac(k, d) == c.Hmac(k', d') ==> k == k' && d == d'
  }

  ghost predicate HashInjective(c: Crypto) { forall x, y :: c.Hash(x) == c.Hash(y) ==> x == y }

  ghost predicate SealInjective(c: Crypto) {
    forall k, a, p, k', a', p' :: c.Seal(k, a, p) == c.Seal(k', a', p') ==> k == k' && a == a' && p == p'
  }

  ghost predicate OpensOnlySealed(c: Crypto) {
    forall k, a, ct :: c.Open(k, a, ct).Some? ==> ct == c.Seal(k, a, c.Open(k, a, ct).value)
  }

  ghost predicate Strong(c: Crypto) {
    Laws(c) && HmacInjective(c) && HashInjective(c) && SealInjective(c) && OpensOnlySealed(c)
  }

  /** Two strings in one, so that both can be told apart again. */
  function Pair(x: Bytes, y: Bytes): Bytes { [|x|] + x + y }

  lemma PairSplits(x: Bytes, y: Bytes, x': Bytes, y': Bytes)
    requires Pair(x, y) == Pair(x', y')
    ensures x == x' && y == y'
  {
    var p, p' := Pair(x, y), Pair(x', y');
    assert p[0] == |x| && p'[0] == |x'|;
    assert x == p[1..1 + |x|] && x' == p'[1..1 + |x'|] && y == p[1 + |x|..] && y' == p'[1 + |x'|..];
  }

  function Toy(): Crypto {
    Crypto(x => x, (k, d) => Pair(k, d), x => Some(x), (a, b) => Some([]), (k, a, p) => Pair(k, Pair(a, p)),
           (k, a, ct) => if Pair(k, Pair(a, [])) <= ct then Some(ct[|Pair(k, Pair(a, []))|..]) else None)
  }

  /** The assumptions can be met together. */
  lemma StrongExists()
    ensures Strong(Toy())
  {
    var c := Toy();
    forall k, d, k', d' | c.Hmac(k, d) == c.Hmac(k', d') ensures k == k' && d == d' { PairSplits(k, d, k', d'); }
    forall k, a, p, k', a', p' | c.Seal(k, a, p) == c.Seal(k', a', p')
      ensures k == k' && a == a' && p == p'
    {
      PairSplits(k, Pair(a, p), k', Pair(a', p'));
      PairSplits(a, p, a', p');
    }
    forall k, a, p ensures c.Seal(k, a, p) == Pair(k, Pair(a, [])) + p { }
  }

  // ----- what keys and hashes are made of -----

  /** The outputs of the key derivation, as in section 2.3 of RFC 5869. */
  function T1(c: Crypto, ck: Bytes, x: Bytes): Bytes { c.Hmac(c.Hmac(ck, x), [1]) }
  function T2(c: Crypto, ck: Bytes, x: Bytes): Bytes { c.Hmac(c.Hmac(ck, x), T1(c, ck, x) + [2]) }
  function T3(c: Crypto, ck: Bytes, x: Bytes): Bytes { c.Hmac(c.Hmac(ck, x), T2(c, ck, x) + [3]) }

  /** The chaining key after inputs have been mixed in, one after the other. */
  function Chain(c: Crypto, ck: Bytes, xs: seq<Bytes>): Bytes {
    if xs == [] then ck else T1(c, Chain(c, ck, xs[..|xs| - 1]), xs[|xs| - 1])
  }

  /** The hash after messages have been absorbed, one after the other. */
  function Transcript(c: Crypto, h: Bytes, xs: seq<Bytes>): Bytes {
    if xs == [] then h else c.Hash(Transcript(c, h, xs[..|xs| - 1]) + xs[|xs| - 1])
  }

  lemma ChainOne(c: Crypto, ck: Bytes, xs: seq<Bytes>, x: Bytes)
    ensures Chain(c, ck, xs + [x]) == T1(c, Chain(c, ck, xs), x)
  {
    assert (xs + [x])[..|xs|] == xs;
  }

  lemma TranscriptOne(c: Crypto, h: Bytes, xs: seq<Bytes>, x: Bytes)
    ensures Transcript(c, h, xs + [x]) == c.Hash(Transcript(c, h, xs) + x)
  {
    assert (xs + [x])[..|xs|] == xs;
  }

  lemma {:induction false} ChainJoin(c: Crypto, ck: Bytes, xs: seq<Bytes>, ys: seq<Bytes>)
    ensures Chain(c, ck, xs + ys) == Chain(c, Chain(c, ck, xs), ys)
    decreases |ys|
  {
    if ys == [] {
      assert xs + ys == xs;
    } else {
      var n := |ys| - 1;
      ChainJoin(c, ck, xs, ys[..n]);
      assert xs + ys == (xs + ys[..n]) + [ys[n]];
      ChainOne(c, ck, xs + ys[..n], ys[n]);
    }
  }

  /** Equal chaining keys come from equal inputs. */
  lemma {:induction false} ChainBinds(c: Crypto, ck: Bytes, xs: seq<Bytes>, ck': Bytes, xs': seq<Bytes>)
    requires HmacInjective(c) && |xs| == |xs'| && Chain(c, ck, xs) == Chain(c, ck', xs')
    ensures ck == ck' && xs == xs'
    decreases |xs|
  {
    if xs == [] {
    } else {
      var n := |xs| - 1;
      ChainBinds(c, ck, xs[..n], ck', xs'[..n]);
      assert xs == xs[..n] + [xs[n]] && xs' == xs'[..n] + [xs'[n]];
    }
  }

  function Name(c: Crypto): Bytes { c.Hash(Ascii(HANDSHAKE_NAME)) }

  function Opening(c: Crypto): Bytes { c.Hash(Name(c) + Ascii(IDENTIFIER_NAME)) }

  /** What is mixed into an initiation. */
  datatype First = First(e: Bytes, es: Bytes, ss: Bytes)

  /** What is mixed into a response. */
  datatype Second = Second(e: Bytes, ee: Bytes, se: Bytes, psk: Bytes)

  function FirstOf(c: Crypto, h: Handshake, secret: Bytes): Option<First> {
    var e, es := c.Public(secret), c.Dh(secret, h.remoteStatic);
    if e.None? || es.None? || h.staticStatic.None? then None else Some(First(e.value, es.value, h.staticStatic.value))
  }

  function SecondOf(c: Crypto, h: Handshake, secret: Bytes): Option<Second> {
    var e, ee, se := c.Public(secret), c.Dh(secret, h.remoteEphemeral), c.Dh(secret, h.remoteStatic);
    if e.None? || ee.None? || se.None? then None else Some(Second(e.value, ee.value, se.value, h.psk))
  }

  /** The two ciphertexts of an initiation. */
  function EncStatic(c: Crypto, x: First, responder: Bytes, me: Bytes): Bytes {
    c.Seal(T2(c, Chain(c, Name(c), [x.e]), x.es), Transcript(c, Opening(c), [responder, x.e]), me)
  }

  function EncTimestamp(c: Crypto, x: First, responder: Bytes, me: Bytes, timestamp: Bytes): Bytes {
    c.Seal(T2(c, Chain(c, Name(c), [x.e, x.es]), x.ss),
           Transcript(c, Opening(c), [responder, x.e, EncStatic(c, x, responder, me)]), timestamp)
  }

  function AfterFirst(c: Crypto, x: First, responder: Bytes, me: Bytes, timestamp: Bytes): Sym {
    Sym(Chain(c, Name(c), [x.e, x.es, x.ss]),
        Transcript(c, Opening(c),
                   [responder, x.e, EncStatic(c, x, responder, me), EncTimestamp(c, x, responder, me, timestamp)]))
  }

  /** The hash under which the response seals nothing; what the preshared key gives is absorbed too. */
  function Sealing(c: Crypto, s: Sym, y: Second): Bytes {
    Transcript(c, s.hash, [y.e, T2(c, Chain(c, s.ck, [y.e, y.ee, y.se]), y.psk)])
  }

  function EncNothing(c: Crypto, s: Sym, y: Second): Bytes {
    c.Seal(T3(c, Chain(c, s.ck, [y.e, y.ee, y.se]), y.psk), Sealing(c, s, y), [])
  }

  function AfterSecond(c: Crypto, s: Sym, y: Second): Sym {
    Sym(Chain(c, s.ck, [y.e, y.ee, y.se, y.psk]), c.Hash(Sealing(c, s, y) + EncNothing(c, s, y)))
  }

  lemma Chains(c: Crypto, ck: Bytes, a: Bytes, b: Bytes, x: Bytes, y: Bytes)
    ensures Chain(c, ck, [a]) == T1(c, ck, a)
    ensures Chain(c, ck, [a, b]) == T1(c, Chain(c, ck, [a]), b)
    ensures Chain(c, ck, [a, b, x]) == T1(c, Chain(c, ck, [a, b]), x)
    ensures Chain(c, ck, [a, b, x, y]) == T1(c, Chain(c, ck, [a, b, x]), y)
  {
    ChainOne(c, ck, [], a);
    ChainOne(c, ck, [a], b);
    ChainOne(c, ck, [a, b], x);
    ChainOne(c, ck, [a, b, x], y);
    assert [] + [a] == [a] && [a] + [b] == [a, b] && [a, b] + [x] == [a, b, x] && [a, b, x] + [y] == [a, b, x, y];
  }

  lemma Transcripts(c: Crypto, h: Bytes, a: Bytes, b: Bytes, x: Bytes, y: Bytes)
    ensures Transcript(c, h, [a]) == c.Hash(h + a)
    ensures Transcript(c, h, [a, b]) == c.Hash(Transcript(c, h, [a]) + b)
    ensures Transcript(c, h, [a, b, x]) == c.Hash(Transcript(c, h, [a, b]) + x)
    ensures Transcript(c, h, [a, b, x, y]) == c.Hash(Transcript(c, h, [a, b, x]) + y)
  {
    TranscriptOne(c, h, [], a);
    TranscriptOne(c, h, [a], b);
    TranscriptOne(c, h, [a, b], x);
    TranscriptOne(c, h, [a, b, x], y);
    assert [] + [a] == [a] && [a] + [b] == [a, b] && [a, b] + [x] == [a, b, x] && [a, b, x] + [y] == [a, b, x, y];
  }

  /** An initiation can be built exactly if all it mixes in is there, and then it is this one. */
  lemma InitiationIs(c: Crypto, me: Identity, h: Handshake, secret: Bytes, timestamp: Bytes, index: nat)
    ensures var (m, h') := CreateInitiation(c, Some(me), h, secret, timestamp, index);
            var x := FirstOf(c, h, secret);
            && (m.Some? <==> x.Some?)
            && (m.Some? ==>
                  && m.value == Initiation(index, x.value.e, EncStatic(c, x.value, h.remoteStatic, me.public),
                                           EncTimestamp(c, x.value, h.remoteStatic, me.public, timestamp))
                  && h' == h.(phase := CreatedInitiation, ephemeral := secret,
                              sym := AfterFirst(c, x.value, h.remoteStatic, me.public, timestamp)))
  {
    var x := FirstOf(c, h, secret);
    if x.Some? {
      var f := x.value;
      var es := EncStatic(c, f, h.remoteStatic, me.public);
      var et := EncTimestamp(c, f, h.remoteStatic, me.public, timestamp);
      Chains(c, Name(c), f.e, f.es, f.ss, []);
      Transcripts(c, Opening(c), h.remoteStatic, f.e, es, et);
    }
  }

  /** The same of a response. */
  lemma ResponseIs(c: Crypto, h: Handshake, secret: Bytes, index: nat)
    ensures var (m, h') := CreateResponse(c, h, secret, index);
            var y := SecondOf(c, h, secret);
            && (m.Some? <==> h.phase == ConsumedInitiation && y.Some?)
            && (m.Some? ==>
                  && m.value == Response(index, h.remoteIndex, y.value.e, EncNothing(c, h.sym, y.value))
                  && h' == h.(phase := CreatedResponse, ephemeral := secret, sym := AfterSecond(c, h.sym, y.value)))
  {
    var y := SecondOf(c, h, secret);
    if y.Some? {
      var z := y.value;
      Chains(c, h.sym.ck, z.e, z.ee, z.se, z.psk);
      Transcripts(c, h.sym.hash, z.e, T2(c, Chain(c, h.sym.ck, [z.e, z.ee, z.se]), z.psk), [], []);
    }
  }

  /** What the initiator mixes in when it reads a response. */
  function AnswerOf(c: Crypto, me: Identity, h: Handshake, e: Bytes): Option<Second> {
    var ee, se := c.Dh(h.ephemeral, e), c.Dh(me.secret, e);
    if ee.None? || se.None? then None else Some(Second(e, ee.value, se.value, h.psk))
  }

  lemma ReadingIs(c: Crypto, me: Identity, h: Handshake, m: Response)
    ensures var y := AnswerOf(c, me, h, m.ephemeral);
            && (ReadResponse(c, Some(me), h, m).Some? <==>
                  && h.phase == CreatedInitiation && y.Some?
                  && c.Open(T3(c, Chain(c, h.sym.ck, [y.value.e, y.value.ee, y.value.se]), y.value.psk),
                            Sealing(c, h.sym, y.value), m.encNothing).Some?)
            && (ReadResponse(c, Some(me), h, m).Some? ==>
                  ReadResponse(c, Some(me), h, m).value.ck ==
                    Chain(c, h.sym.ck, [y.value.e, y.value.ee, y.value.se, y.value.psk]))
  {
    var y := AnswerOf(c, me, h, m.ephemeral);
    if y.Some? {
      var z := y.value;
      Chains(c, h.sym.ck, z.e, z.ee, z.se, z.psk);
      Transcripts(c, h.sym.hash, z.e, T2(c, Chain(c, h.sym.ck, [z.e, z.ee, z.se]), z.psk), [], []);
    }
  }

  /** The third output of the key derivation binds its inputs. */
  lemma T3Binds(c: Crypto, ck: Bytes, x: Bytes, ck': Bytes, x': Bytes)
    requires HmacInjective(c) && T3(c, ck, x) == T3(c, ck', x')
    ensures ck == ck' && x == x'
  {
    assert c.Hmac(ck, x) == c.Hmac(ck', x');
  }

  lemma SameTail(a: Bytes, b: Bytes, x: Bytes)
    requires a + x == b + x
    ensures a == b
  {
    assert |a| == |b|;
    assert a == (a + x)[..|a|] && b == (b + x)[..|b|];
  }

  lemma SealingBinds(c: Crypto, s: Sym, s': Sym, y: Second)
    requires HashInjective(c) && s.ck == s'.ck && Sealing(c, s, y) == Sealing(c, s', y)
    ensures s == s'
  {
    var tau := T2(c, Chain(c, s.ck, [y.e, y.ee, y.se]), y.psk);
    Transcripts(c, s.hash, y.e, tau, [], []);
    Transcripts(c, s'.hash, y.e, tau, [], []);
    SameTail(c.Hash(s.hash + y.e), c.Hash(s'.hash + y.e), tau);
    SameTail(s.hash, s'.hash, y.e);
  }

  lemma NothingBinds(c: Crypto, s: Sym, y: Second, s': Sym, y': Second)
    requires Strong(c)
    requires c.Open(T3(c, Chain(c, s'.ck, [y'.e, y'.ee, y'.se]), y'.psk), Sealing(c, s', y'), EncNothing(c, s, y)).Some?
    ensures s == s' && y == y'
  {
    var ck, ck' := Chain(c, s.ck, [y.e, y.ee, y.se]), Chain(c, s'.ck, [y'.e, y'.ee, y'.se]);
    T3Binds(c, ck, y.psk, ck', y'.psk);
    ChainBinds(c, s.ck, [y.e, y.ee, y.se], s'.ck, [y'.e, y'.ee, y'.se]);
    assert [y.e, y.ee, y.se][0] == [y'.e, y'.ee, y'.se][0] && [y.e, y.ee, y.se][1] == [y'.e, y'.ee, y'.se][1];
    assert [y.e, y.ee, y.se][2] == [y'.e, y'.ee, y'.se][2];
    SealingBinds(c, s, s', y);
  }

  /**
   A response is understood exactly by a side that waits for one, has the same symmetric state, and
   comes to the same two shared secrets and the same preshared key.
   */
  lemma ResponseUnderstoodIff(c: Crypto, a: Identity, ha: Handshake, hb: Handshake, secret: Bytes, index: nat)
    requires Strong(c) && CreateResponse(c, hb, secret, index).0.Some?
    ensures var m := CreateResponse(c, hb, secret, index).0.value;
            ConsumeResponse(c, Some(a), ha, m).Some? <==>
              && ha.phase == CreatedInitiation && ha.sym == hb.sym && ha.psk == hb.psk
              && c.Dh(ha.ephemeral, m.ephemeral) == c.Dh(secret, hb.remoteEphemeral)
              && c.Dh(a.secret, m.ephemeral) == c.Dh(secret, hb.remoteStatic)
  {
    ResponseIs(c, hb, secret, index);
    var m, y := CreateResponse(c, hb, secret, index).0.value, SecondOf(c, hb, secret).value;
    ReadingIs(c, a, ha, m);
    var y' := AnswerOf(c, a, ha, m.ephemeral);
    if ReadResponse(c, Some(a), ha, m).Some? { NothingBinds(c, hb.sym, y, ha.sym, y'.value); }
  }

  /** Two sides that know each other but for the preshared key: the response is consumed exactly if that agrees too. */
  lemma PskMustAgree(c: Crypto, a: Identity, ha: Handshake, b: Identity, hb: Handshake, secret: Bytes, index: nat)
    requires Strong(c) && Acquainted(c, a, ha.(psk := hb.psk), b, hb)
    requires ha.phase == CreatedInitiation && ha.sym == hb.sym && c.Public(ha.ephemeral) == Some(hb.remoteEphemeral)
    requires CreateResponse(c, hb, secret, index).0.Some?
    ensures ConsumeResponse(c, Some(a), ha, CreateResponse(c, hb, secret, index).0.value).Some? <==> ha.psk == hb.psk
  {
    ResponseUnderstoodIff(c, a, ha, hb, secret, index);
    ResponseIs(c, hb, secret, index);
    var e := c.Public(secret).value;
    assert c.Dh(ha.ephemeral, e) == c.Dh(secret, hb.remoteEphemeral) && c.Dh(a.secret, e) == c.Dh(secret, a.public);
  }

  // ----- the initiation -----

  /** What the responder mixes in when it reads an initiation, given the static secret it has for the sender. */
  lemma StaticBinds(c: Crypto, x: First, responder: Bytes, me: Bytes, es: Bytes, responder': Bytes)
    requires Strong(c)
    requires c.Open(T2(c, Chain(c, Name(c), [x.e]), es), Transcript(c, Opening(c), [responder', x.e]),
                    EncStatic(c, x, responder, me)).Some?
    ensures es == x.es && responder' == responder
  {
    var ck := Chain(c, Name(c), [x.e]);
    SealBinds(c, T2(c, ck, x.es), Transcript(c, Opening(c), [responder, x.e]), me,
              T2(c, ck, es), Transcript(c, Opening(c), [responder', x.e]));
    T2Binds(c, ck, x.es, es);
    AbsorbBinds(c, Opening(c), responder, responder', x.e);
  }

  /** Opening what was sealed means the same key and data. */
  lemma SealBinds(c: Crypto, k: Bytes, a: Bytes, p: Bytes, k': Bytes, a': Bytes)
    requires SealInjective(c) && OpensOnlySealed(c) && c.Open(k', a', c.Seal(k, a, p)).Some?
    ensures k == k' && a == a'
  {
  }

  lemma T2Binds(c: Crypto, ck: Bytes, x: Bytes, x': Bytes)
    requires HmacInjective(c) && T2(c, ck, x) == T2(c, ck, x')
    ensures x == x'
  {
    assert c.Hmac(ck, x) == c.Hmac(ck, x');
  }

  lemma AbsorbBinds(c: Crypto, h: Bytes, a: Bytes, a': Bytes, b: Bytes)
    requires HashInjective(c) && Transcript(c, h, [a, b]) == Transcript(c, h, [a', b])
    ensures a == a'
  {
    Transcripts(c, h, a, b, [], []);
    Transcripts(c, h, a', b, [], []);
    SameTail(c.Hash(h + a), c.Hash(h + a'), b);
    assert a == (h + a)[|h|..] && a' == (h + a')[|h|..];
  }

  lemma TimestampBinds(c: Crypto, x: First, responder: Bytes, me: Bytes, timestamp: Bytes, ss: Bytes)
    requires Strong(c)
    requires c.Open(T2(c, Chain(c, Name(c), [x.e, x.es]), ss),
                    Transcript(c, Opening(c), [responder, x.e, EncStatic(c, x, responder, me)]),
                    EncTimestamp(c, x, responder, me, timestamp)).Some?
    ensures ss == x.ss
  {
    var ck := Chain(c, Name(c), [x.e, x.es]);
    var ad := Transcript(c, Opening(c), [responder, x.e, EncStatic(c, x, responder, me)]);
    SealBinds(c, T2(c, ck, x.ss), ad, timestamp, T2(c, ck, ss), ad);
    T2Binds(c, ck, x.ss, ss);
  }

  /**
   An initiation is understood exactly by the responder it is meant for, if that comes to the same
   ephemeral-static secret and has the same static secret with the sender.
   */
  lemma InitiationUnderstoodIff(c: Crypto, a: Identity, ha: Handshake, b: Identity, peers: map<Bytes, Handshake>,
                                secret: Bytes, timestamp: Bytes, index: nat)
    requires Strong(c) && CreateInitiation(c, Some(a), ha, secret, timestamp, index).0.Some?
    ensures var m := CreateInitiation(c, Some(a), ha, secret, timestamp, index).0.value;
            ReadInitiation(c, Some(b), peers, m).Some? <==>
              && b.public == ha.remoteStatic && c.Dh(b.secret, m.ephemeral) == c.Dh(secret, ha.remoteStatic)
              && a.public in peers && peers[a.public].staticStatic == ha.staticStatic
  {
    InitiationIs(c, a, ha, secret, timestamp, index);
    var x := FirstOf(c, ha, secret).value;
    var m := CreateInitiation(c, Some(a), ha, secret, timestamp, index).0.value;
    var es := c.Dh(b.secret, x.e);
    Chains(c, Name(c), x.e, x.es, x.ss, []);
    Transcripts(c, Opening(c), b.public, x.e, m.encStatic, m.encTimestamp);
    if es.Some? {
      var key := T2(c, Chain(c, Name(c), [x.e]), es.value);
      if c.Open(key, Transcript(c, Opening(c), [b.public, x.e]), m.encStatic).Some? {
        StaticBinds(c, x, ha.remoteStatic, a.public, es.value, b.public);
        ReadsTimestamp(c, x, a, ha, b, peers, timestamp, m);
      }
    }
  }

  lemma ReadsTimestamp(c: Crypto, x: First, a: Identity, ha: Handshake, b: Identity, peers: map<Bytes, Handshake>,
                       timestamp: Bytes, m: Initiation)
    requires Strong(c) && b.public == ha.remoteStatic && c.Dh(b.secret, x.e) == Some(x.es)
    requires m.ephemeral == x.e && m.encStatic == EncStatic(c, x, b.public, a.public)
    requires m.encTimestamp == EncTimestamp(c, x, b.public, a.public, timestamp)
    ensures ReadInitiation(c, Some(b), peers, m).Some? <==>
            a.public in peers && peers[a.public].staticStatic == Some(x.ss)
  {
    Chains(c, Name(c), x.e, x.es, x.ss, []);
    Transcripts(c, Opening(c), b.public, x.e, m.encStatic, m.encTimestamp);
    if a.public in peers && peers[a.public].staticStatic.Some? {
      var ss := peers[a.public].staticStatic.value;
      if c.Open(T2(c, Chain(c, Name(c), [x.e, x.es]), ss), Transcript(c, Opening(c), [b.public, x.e, m.encStatic]),
                m.encTimestamp).Some? {
        TimestampBinds(c, x, b.public, a.public, timestamp, ss);
      }
    }
  }

  // ----- the session -----

  /** The chaining key of a whole exchange. */
  function Final(c: Crypto, x: First, y: Second): Bytes {
    Chain(c, Name(c), [x.e, x.es, x.ss, y.e, y.ee, y.se, y.psk])
  }

  lemma FinalIs(c: Crypto, x: First, responder: Bytes, me: Bytes, timestamp: Bytes, y: Second)
    ensures AfterSecond(c, AfterFirst(c, x, responder, me, timestamp), y).ck == Final(c, x, y)
  {
    ChainJoin(c, Name(c), [x.e, x.es, x.ss], [y.e, y.ee, y.se, y.psk]);
    assert [x.e, x.es, x.ss] + [y.e, y.ee, y.se, y.psk] == [x.e, x.es, x.ss, y.e, y.ee, y.se, y.psk];
  }

  /**
   A session begins exactly if the handshake is over, a keypair was created and the peer lives.  The initiator sends
   with the first key derived from the final chaining key and receives with the second.
   */
  lemma SessionIs(c: Crypto, h: Handshake, created: bool, dead: bool)
    ensures var (s, h') := BeginSession(c, h, created, dead);
            var ready := h.phase == ConsumedResponse || h.phase == CreatedResponse;
            && (s.Some? <==> ready && created && !dead) && (h' == h <==> !(ready && created))
            && (s.Some? ==>
                  && s.value.initiator == (h.phase == ConsumedResponse) && s.value.remoteIndex == h.remoteIndex
                  && (if s.value.initiator then s.value.sending else s.value.receiving) == T1(c, h.sym.ck, [])
                  && (if s.value.initiator then s.value.receiving else s.value.sending) == T2(c, h.sym.ck, []))
  {
  }

  /** The keys of the responder, and so of both sides, from what the two messages mix in. */
  lemma KeysOfExchange(c: Crypto, a: Identity, ha: Handshake, hb: Handshake, secretA: Bytes, secretB: Bytes,
                       timestamp: Bytes, indexA: nat, indexB: nat)
    requires CreateInitiation(c, Some(a), ha, secretA, timestamp, indexA).0.Some?
    requires hb.sym == CreateInitiation(c, Some(a), ha, secretA, timestamp, indexA).1.sym
    requires CreateResponse(c, hb, secretB, indexB).0.Some?
    ensures var (x, y) := (FirstOf(c, ha, secretA), SecondOf(c, hb, secretB));
            var s := BeginSession(c, CreateResponse(c, hb, secretB, indexB).1, true, false).0;
            && x.Some? && y.Some? && s.Some?
            && s.value.receiving == T1(c, Final(c, x.value, y.value), [])
            && s.value.sending == T2(c, Final(c, x.value, y.value), [])
  {
    InitiationIs(c, a, ha, secretA, timestamp, indexA);
    ResponseIs(c, hb, secretB, indexB);
    FinalIs(c, FirstOf(c, ha, secretA).value, ha.remoteStatic, a.public, timestamp, SecondOf(c, hb, secretB).value);
    SessionIs(c, CreateResponse(c, hb, secretB, indexB).1, true, false);
  }

  /** After the session has begun the handshake holds no key and gives neither a session nor a response any more. */
  lemma SessionOnce(c: Crypto, h: Handshake, dead: bool, created: bool, again: bool, me: Option<Identity>, m: Response,
                    secret: Bytes, index: nat)
    requires h.phase == ConsumedResponse || h.phase == CreatedResponse
    ensures var h' := BeginSession(c, h, true, dead).1;
            && BeginSession(c, h', created, again).0.None? && CreateResponse(c, h', secret, index).0.None?
            && ConsumeResponse(c, me, h', m).None?
            && h'.sym == Sym(Zeroes(), Zeroes()) && h'.ephemeral == Zeroes()
            && h'.psk == h.psk && h'.remoteStatic == h.remoteStatic && h'.staticStatic == h.staticStatic
            && h'.latest == h.latest
  {
  }

  /** Equal session keys mean equal secrets throughout. */
  lemma SameKeySameSecrets(c: Crypto, x: First, y: Second, x': First, y': Second)
    requires HmacInjective(c)
    requires T1(c, Final(c, x, y), []) == T1(c, Final(c, x', y'), [])
             || T2(c, Final(c, x, y), []) == T2(c, Final(c, x', y'), [])
    ensures x == x' && y == y'
  {
    assert c.Hmac(Final(c, x, y), []) == c.Hmac(Final(c, x', y'), []);
    var a, b := [x.e, x.es, x.ss, y.e, y.ee, y.se, y.psk], [x'.e, x'.es, x'.ss, y'.e, y'.ee, y'.se, y'.psk];
    ChainBinds(c, Name(c), a, Name(c), b);
    assert a[0] == b[0] && a[1] == b[1] && a[2] == b[2] && a[3] == b[3] && a[4] == b[4] && a[5] == b[5] && a[6] == b[6];
  }
}
