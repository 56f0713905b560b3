/** The packed form in which clients hand over metadata (service/src/metadata.c). */
module MetadataLayout {
  import opened Common
  import opened FirstKeys
  import opened Metadata

  type u8 = x: int | 0 <= x < 0x100

  const KV_SIZE := 8
  const SIZEOF_U32: nat := 4

  function Word(b0: int, b1: int, b2: int, b3: int): int {
    b0 + 0x100 * b1 + 0x1_0000 * b2 + 0x100_0000 * b3
  }

  // A little-endian 32-bit word.
  function U32At(b: seq<u8>, p: nat): u32
    requires p + 4 <= |b|
  {
    Word(b[p], b[p + 1], b[p + 2], b[p + 3])
  }

  function KvsAt(b: seq<u8>, p: nat, n: nat): (kvs: seq<KeyValue>)
    requires p + n * KV_SIZE <= |b|
    ensures |kvs| == n
    decreases n
  {
    if n == 0 then []
    else [KeyValue(U32At(b, p), U32At(b, p + 4))] + KvsAt(b, p + KV_SIZE, n - 1)
  }

  function U32sAt(b: seq<u8>, p: nat, n: nat): (vs: seq<u32>)
    requires p + n * 4 <= |b|
    ensures |vs| == n
    decreases n
  {
    if n == 0 then [] else [U32At(b, p)] + U32sAt(b, p + 4, n - 1)
  }

  // ---- the macros; each count is read at an offset that depends on the counts before it ------

  ghost predicate HasGkv(b: seq<u8>) { 4 <= |b| && PtrToNumCkv(b) <= |b| }

  function NumGkv(b: seq<u8>): u32
    requires 4 <= |b|
  {
    U32At(b, 0)
  }

  function PtrToNumCkv(b: seq<u8>): nat
    requires 4 <= |b|
  {
    4 + NumGkv(b) * KV_SIZE
  }

  ghost predicate HasCkv(b: seq<u8>) { HasGkv(b) && PtrToNumCkv(b) + 4 <= |b| && PtrToPropId(b) <= |b| }

  function NumCkv(b: seq<u8>): u32
    requires 4 <= |b| && PtrToNumCkv(b) + 4 <= |b|
  {
    U32At(b, PtrToNumCkv(b))
  }

  function PtrToCkv(b: seq<u8>): nat
    requires 4 <= |b|
  {
    PtrToNumCkv(b) + 4
  }

  function PtrToPropId(b: seq<u8>): nat
    requires 4 <= |b| && PtrToNumCkv(b) + 4 <= |b|
  {
    PtrToCkv(b) + NumCkv(b) * KV_SIZE
  }

  function PtrToNumProps(b: seq<u8>): nat
    requires 4 <= |b| && PtrToNumCkv(b) + 4 <= |b|
  {
    PtrToPropId(b) + 4
  }

  function NumProps(b: seq<u8>): u32
    requires 4 <= |b| && PtrToNumCkv(b) + 4 <= |b| && PtrToNumProps(b) + 4 <= |b|
  {
    U32At(b, PtrToNumProps(b))
  }

  function PtrToProps(b: seq<u8>): nat
    requires 4 <= |b| && PtrToNumCkv(b) + 4 <= |b|
  {
    PtrToNumProps(b) + 4
  }

  /** The buffer is as long as its own counts say; the code relies on it and never looks at the given size. */
  ghost predicate Complete(b: seq<u8>) {
    HasCkv(b) && PtrToNumProps(b) + 4 <= |b| && Size(b) <= |b|
  }

  function Size(b: seq<u8>): nat
    requires 4 <= |b| && PtrToNumCkv(b) + 4 <= |b| && PtrToNumProps(b) + 4 <= |b|
  {
    PtrToProps(b) + NumProps(b) * 4
  }

  /** metadata_copy */
  function Copy(b: seq<u8>): Meta
    requires Complete(b)
  {
    Meta(KvsAt(b, 4, NumGkv(b)), KvsAt(b, PtrToCkv(b), NumCkv(b)),
         U32At(b, PtrToPropId(b)), U32sAt(b, PtrToProps(b), NumProps(b)))
  }

  lemma {:induction false} KvsAtIndex(b: seq<u8>, p: nat, n: nat, i: nat)
    requires p + n * KV_SIZE <= |b| && i < n
    ensures KvsAt(b, p, n)[i] == KeyValue(U32At(b, p + 8 * i), U32At(b, p + 8 * i + 4))
    decreases n
  {
    if i > 0 {
      KvsAtIndex(b, p + KV_SIZE, n - 1, i - 1);
    }
  }

  lemma {:induction false} U32sAtIndex(b: seq<u8>, p: nat, n: nat, i: nat)
    requires p + n * 4 <= |b| && i < n
    ensures U32sAt(b, p, n)[i] == U32At(b, p + 4 * i)
    decreases n
  {
    if i > 0 {
      U32sAtIndex(b, p + 4, n - 1, i - 1);
    }
  }

  /** Where each part of a copy comes from, as byte offsets that depend on the counts before. */
  lemma CopyFields(b: seq<u8>)
    requires Complete(b)
    ensures var m := Copy(b);
            var c := 4 + 8 * |m.gkv|;
            var p := c + 4 + 8 * |m.ckv|;
            && |b| >= p + 8 + 4 * |m.props|
            && |m.gkv| == U32At(b, 0) && |m.ckv| == U32At(b, c) && |m.props| == U32At(b, p + 4)
            && m.propId == U32At(b, p)
            && (forall i :: 0 <= i < |m.gkv| ==>
                  m.gkv[i].key == U32At(b, 4 + 8 * i) && m.gkv[i].value == U32At(b, 8 + 8 * i))
            && (forall i :: 0 <= i < |m.ckv| ==>
                  m.ckv[i].key == U32At(b, c + 4 + 8 * i) && m.ckv[i].value == U32At(b, c + 8 + 8 * i))
            && (forall i :: 0 <= i < |m.props| ==> m.props[i] == U32At(b, p + 8 + 4 * i))
  {
    var m := Copy(b);
    forall i | 0 <= i < |m.gkv| ensures m.gkv[i] == KeyValue(U32At(b, 4 + 8 * i), U32At(b, 8 + 8 * i)) {
      KvsAtIndex(b, 4, NumGkv(b), i);
    }
    forall i | 0 <= i < |m.ckv|
      ensures m.ckv[i] == KeyValue(U32At(b, PtrToCkv(b) + 8 * i), U32At(b, PtrToCkv(b) + 4 + 8 * i))
    {
      KvsAtIndex(b, PtrToCkv(b), NumCkv(b), i);
    }
    forall i | 0 <= i < |m.props| ensures m.props[i] == U32At(b, PtrToProps(b) + 4 * i) {
      U32sAtIndex(b, PtrToProps(b), NumProps(b), i);
    }
  }

  // ---- the documented layout ---------------------------------------------------------------

  // v as n bytes, the lowest first.
  function Bytes(v: nat, n: nat): (b: seq<u8>)
    ensures |b| == n
  {
    if n == 0 then [] else [v % 0x100] + Bytes(v / 0x100, n - 1)
  }

  function U32Bytes(v: u32): (b: seq<u8>)
    ensures |b| == 4
  {
    Bytes(v, SIZEOF_U32)
  }

  function KvBytes(kvs: seq<KeyValue>): (b: seq<u8>)
    ensures |b| == |kvs| * KV_SIZE
  {
    if kvs == [] then [] else U32Bytes(kvs[0].key) + U32Bytes(kvs[0].value) + KvBytes(kvs[1..])
  }

  function U32sBytes(vs: seq<u32>): (b: seq<u8>)
    ensures |b| == |vs| * 4
  {
    if vs == [] then [] else U32Bytes(vs[0]) + U32sBytes(vs[1..])
  }

  // The counts fit their 32-bit fields.
  predicate Encodable(m: Meta) {
    |m.gkv| < 0x1_0000_0000 && |m.ckv| < 0x1_0000_0000 && |m.props| < 0x1_0000_0000
  }

  function Encode(m: Meta): seq<u8>
    requires Encodable(m)
  {
    U32Bytes(|m.gkv|) + (KvBytes(m.gkv) +
    (U32Bytes(|m.ckv|) + (KvBytes(m.ckv) +
    (U32Bytes(m.propId) + (U32Bytes(|m.props|) + U32sBytes(m.props))))))
  }

  // ---- reading back ------------------------------------------------------------------------

  // b holds the bytes of part at offset p.
  predicate HoldsAt(b: seq<u8>, p: nat, part: seq<u8>)
    decreases |part|
  {
    part == [] || (p < |b| && b[p] == part[0] && HoldsAt(b, p + 1, part[1..]))
  }

  lemma {:induction false} HoldsSlice(b: seq<u8>, p: nat, part: seq<u8>)
    requires p + |part| <= |b|
    ensures HoldsAt(b, p, part) <==> b[p..p + |part|] == part
    decreases |part|
  {
    if part != [] {
      HoldsSlice(b, p + 1, part[1..]);
      assert b[p..p + |part|] == [b[p]] + b[p + 1..p + |part|];
      assert part == [part[0]] + part[1..];
    }
  }

  lemma {:induction false} HoldsFits(b: seq<u8>, p: nat, part: seq<u8>)
    requires HoldsAt(b, p, part) && p <= |b|
    ensures p + |part| <= |b|
    decreases |part|
  {
    if part != [] {
      HoldsFits(b, p + 1, part[1..]);
    }
  }

  lemma {:induction false} HoldsSplit(b: seq<u8>, p: nat, x: seq<u8>, y: seq<u8>)
    ensures HoldsAt(b, p, x + y) <==> HoldsAt(b, p, x) && HoldsAt(b, p + |x|, y)
    decreases |x|
  {
    if x == [] {
      assert x + y == y;
    } else {
      assert (x + y)[1..] == x[1..] + y;
      HoldsSplit(b, p + 1, x[1..], y);
    }
  }

  lemma WordAt(b: seq<u8>, p: nat, v: u32)
    requires p + 4 <= |b|
    ensures HoldsAt(b, p, U32Bytes(v)) <==> U32At(b, p) == v
  {
    HoldsSlice(b, p, U32Bytes(v));
    WordSlice(b[p..p + 4], v);
  }

  lemma WordSlice(s: seq<u8>, v: u32)
    requires |s| == 4
    ensures s == U32Bytes(v) <==> Word(s[0], s[1], s[2], s[3]) == v
  {
    WordBytes(v);
    WordDigits(s[0], s[1], s[2], s[3]);
    assert s == [s[0], s[1], s[2], s[3]];
  }

  lemma WordBytes(v: u32)
    ensures U32Bytes(v) == [v % 0x100, v / 0x100 % 0x100, v / 0x1_0000 % 0x100, v / 0x100_0000 % 0x100]
    ensures Word(v % 0x100, v / 0x100 % 0x100, v / 0x1_0000 % 0x100, v / 0x100_0000 % 0x100) == v
  {
    assert Bytes(v / 0x100, 3) == [v / 0x100 % 0x100] + Bytes(v / 0x100 / 0x100, 2);
    assert v / 0x100 / 0x100 == v / 0x1_0000 && v / 0x1_0000 / 0x100 == v / 0x100_0000;
    assert Bytes(v / 0x1_0000, 2) == [v / 0x1_0000 % 0x100] + Bytes(v / 0x100_0000, 1);
    assert Bytes(v / 0x100_0000, 1) == [v / 0x100_0000 % 0x100];
  }

  lemma WordDigits(b0: u8, b1: u8, b2: u8, b3: u8)
    ensures var v := Word(b0, b1, b2, b3);
            && v < 0x1_0000_0000
            && v % 0x100 == b0 && v / 0x100 % 0x100 == b1
            && v / 0x1_0000 % 0x100 == b2 && v / 0x100_0000 % 0x100 == b3
  {
    var v := Word(b0, b1, b2, b3);
    assert v / 0x100 == b1 + 0x100 * b2 + 0x1_0000 * b3;
    assert v / 0x1_0000 == b2 + 0x100 * b3;
    assert v / 0x100_0000 == b3;
  }

  lemma {:induction false} KvsHeld(b: seq<u8>, p: nat, kvs: seq<KeyValue>)
    requires p + |kvs| * KV_SIZE <= |b|
    ensures HoldsAt(b, p, KvBytes(kvs)) <==> KvsAt(b, p, |kvs|) == kvs
    decreases |kvs|
  {
    if kvs != [] {
      var head := U32Bytes(kvs[0].key) + U32Bytes(kvs[0].value);
      HoldsSplit(b, p, head, KvBytes(kvs[1..]));
      HoldsSplit(b, p, U32Bytes(kvs[0].key), U32Bytes(kvs[0].value));
      WordAt(b, p, kvs[0].key);
      WordAt(b, p + 4, kvs[0].value);
      KvsHeld(b, p + KV_SIZE, kvs[1..]);
      var kv := KeyValue(U32At(b, p), U32At(b, p + 4));
      var rest := KvsAt(b, p + KV_SIZE, |kvs| - 1);
      assert kvs == [kvs[0]] + kvs[1..];
      assert ([kv] + rest)[0] == kv && ([kv] + rest)[1..] == rest;
    }
  }

  lemma {:induction false} U32sHeld(b: seq<u8>, p: nat, vs: seq<u32>)
    requires p + |vs| * 4 <= |b|
    ensures HoldsAt(b, p, U32sBytes(vs)) <==> U32sAt(b, p, |vs|) == vs
    decreases |vs|
  {
    if vs != [] {
      HoldsSplit(b, p, U32Bytes(vs[0]), U32sBytes(vs[1..]));
      WordAt(b, p, vs[0]);
      U32sHeld(b, p + 4, vs[1..]);
      var rest := U32sAt(b, p + 4, |vs| - 1);
      assert vs == [vs[0]] + vs[1..];
      assert ([U32At(b, p)] + rest)[0] == U32At(b, p) && ([U32At(b, p)] + rest)[1..] == rest;
    }
  }

  // Where each part of an encoding lies.
  predicate Parts(b: seq<u8>, m: Meta)
    requires Encodable(m)
  {
    var p1 := 4;
    var p2 := p1 + |m.gkv| * KV_SIZE;
    var p3 := p2 + 4;
    var p4 := p3 + |m.ckv| * KV_SIZE;
    && HoldsAt(b, 0, U32Bytes(|m.gkv|)) && HoldsAt(b, p1, KvBytes(m.gkv))
    && HoldsAt(b, p2, U32Bytes(|m.ckv|)) && HoldsAt(b, p3, KvBytes(m.ckv))
    && HoldsAt(b, p4, U32Bytes(m.propId)) && HoldsAt(b, p4 + 4, U32Bytes(|m.props|))
    && HoldsAt(b, p4 + 8, U32sBytes(m.props))
  }

  // Seven parts in a row.
  lemma HoldsSeven(b: seq<u8>, x1: seq<u8>, x2: seq<u8>, x3: seq<u8>, x4: seq<u8>, x5: seq<u8>, x6: seq<u8>,
                   x7: seq<u8>, p2: nat, p3: nat, p4: nat, p5: nat, p6: nat, p7: nat)
    requires p2 == |x1| && p3 == p2 + |x2| && p4 == p3 + |x3|
    requires p5 == p4 + |x4| && p6 == p5 + |x5| && p7 == p6 + |x6|
    ensures HoldsAt(b, 0, x1 + (x2 + (x3 + (x4 + (x5 + (x6 + x7)))))) <==>
            && HoldsAt(b, 0, x1) && HoldsAt(b, p2, x2) && HoldsAt(b, p3, x3) && HoldsAt(b, p4, x4)
            && HoldsAt(b, p5, x5) && HoldsAt(b, p6, x6) && HoldsAt(b, p7, x7)
  {
    HoldsSplit(b, 0, x1, x2 + (x3 + (x4 + (x5 + (x6 + x7)))));
    HoldsSplit(b, p2, x2, x3 + (x4 + (x5 + (x6 + x7))));
    HoldsSplit(b, p3, x3, x4 + (x5 + (x6 + x7)));
    HoldsSplit(b, p4, x4, x5 + (x6 + x7));
    HoldsSplit(b, p5, x5, x6 + x7);
    HoldsSplit(b, p6, x6, x7);
  }

  lemma EncodingParts(b: seq<u8>, m: Meta)
    requires Encodable(m)
    ensures HoldsAt(b, 0, Encode(m)) <==> Parts(b, m)
  {
    var p2 := 4 + |m.gkv| * KV_SIZE;
    var p4 := p2 + 4 + |m.ckv| * KV_SIZE;
    HoldsSeven(b, U32Bytes(|m.gkv|), KvBytes(m.gkv), U32Bytes(|m.ckv|), KvBytes(m.ckv),
               U32Bytes(m.propId), U32Bytes(|m.props|), U32sBytes(m.props),
               4, p2, p2 + 4, p4, p4 + 4, p4 + 8);
  }

  /** A buffer starts with the documented layout of m exactly when it is complete and copies to m. */
  lemma CopyInvertsLayout(b: seq<u8>, m: Meta)
    requires Encodable(m)
    ensures HoldsAt(b, 0, Encode(m)) <==> Complete(b) && Copy(b) == m
  {
    EncodingParts(b, m);
    if Parts(b, m) {
      PartsCopy(b, m);
    }
    if Complete(b) && Copy(b) == m {
      CopyParts(b);
    }
  }

  lemma PartsCounts(b: seq<u8>, m: Meta)
    requires Encodable(m) && Parts(b, m)
    ensures Complete(b)
    ensures NumGkv(b) == |m.gkv| && NumCkv(b) == |m.ckv| && NumProps(b) == |m.props|
    ensures U32At(b, PtrToPropId(b)) == m.propId
  {
    var p2 := 4 + |m.gkv| * KV_SIZE;
    var p4 := p2 + 4 + |m.ckv| * KV_SIZE;
    PartsFit(b, m);
    WordAt(b, 0, |m.gkv|);
    assert NumGkv(b) == |m.gkv| && PtrToNumCkv(b) == p2;
    WordAt(b, p2, |m.ckv|);
    assert NumCkv(b) == |m.ckv| && PtrToPropId(b) == p4;
    WordAt(b, p4, m.propId);
    assert U32At(b, PtrToPropId(b)) == m.propId && PtrToNumProps(b) == p4 + 4;
    WordAt(b, p4 + 4, |m.props|);
    assert NumProps(b) == |m.props|;
  }

  lemma PartsFit(b: seq<u8>, m: Meta)
    requires Encodable(m) && Parts(b, m)
    ensures 16 + |m.gkv| * KV_SIZE + |m.ckv| * KV_SIZE + |m.props| * 4 <= |b|
  {
    EncodingParts(b, m);
    HoldsFits(b, 0, Encode(m));
  }

  lemma PartsCopy(b: seq<u8>, m: Meta)
    requires Encodable(m) && Parts(b, m)
    ensures Complete(b) && Copy(b) == m
  {
    PartsCounts(b, m);
    KvsHeld(b, 4, m.gkv);
    KvsHeld(b, PtrToCkv(b), m.ckv);
    U32sHeld(b, PtrToProps(b), m.props);
  }

  lemma CopyParts(b: seq<u8>)
    requires Complete(b)
    ensures Encodable(Copy(b)) && Parts(b, Copy(b))
  {
    var m := Copy(b);
    WordAt(b, 0, |m.gkv|);
    WordAt(b, PtrToNumCkv(b), |m.ckv|);
    WordAt(b, PtrToPropId(b), m.propId);
    WordAt(b, PtrToNumProps(b), |m.props|);
    KvsHeld(b, 4, m.gkv);
    KvsHeld(b, PtrToCkv(b), m.ckv);
    U32sHeld(b, PtrToProps(b), m.props);
  }

  /** Encoding what was copied gives the buffer back, whatever follows it. */
  lemma RoundTrip(b: seq<u8>, m: Meta, rest: seq<u8>)
    requires Encodable(m)
    ensures Complete(Encode(m) + rest) && Copy(Encode(m) + rest) == m
    ensures Complete(b) ==> Encodable(Copy(b)) && Encode(Copy(b)) == b[..Size(b)]
  {
    var all := Encode(m) + rest;
    assert all[0..|Encode(m)|] == Encode(m);
    HoldsSlice(all, 0, Encode(m));
    CopyInvertsLayout(Encode(m) + rest, m);
    if Complete(b) {
      CopyParts(b);
      EncodingParts(b, Copy(b));
      assert |Encode(Copy(b))| == Size(b);
      HoldsSlice(b, 0, Encode(Copy(b)));
      assert b[0..Size(b)] == b[..Size(b)];
    }
  }
}
