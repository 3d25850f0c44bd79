/**
  The writer side of the `.ktest` layout read by `KTestParser`: an encoder from a test
  image to bytes, and the proof that decoding what it writes gives the test back, with
  the symbolic-argument block of version 2 and later skipped and any trailing bytes ignored.
*/
module KTestFormat {
  import opened Wrappers
  import opened KTestParser

  const Limit: nat := 0x1_0000_0000

  /** The big-endian 32-bit encoding of `n`. */
  function U32(n: nat): (r: seq<Byte>)
    requires n < Limit
    ensures |r| == 4
  {
    var q1 := n / 256;
    var q2 := q1 / 256;
    var q3 := q2 / 256;
    [q3, q2 % 256, q1 % 256, n % 256]
  }

  /** The bytes `e` lie in `data` from offset `p` on. */
  predicate BytesAt(data: seq<Byte>, p: nat, e: seq<Byte>)
  {
    p + |e| <= |data| && BytesFrom(data, p, e, 0)
  }

  /** Bytes `i` onwards of `e` lie in `data` from offset `p + i` on. */
  predicate BytesFrom(data: seq<Byte>, p: nat, e: seq<Byte>, i: nat)
    decreases |e| - i
  {
    i >= |e| || (p + i < |data| && data[p + i] == e[i] && BytesFrom(data, p, e, i + 1))
  }

  lemma {:induction false} ByteFrom(data: seq<Byte>, p: nat, e: seq<Byte>, i: nat, k: nat)
    requires p + |e| <= |data| && BytesFrom(data, p, e, i) && i <= k < |e|
    ensures data[p + k] == e[k]
    decreases k - i
  {
    if i < k {
      ByteFrom(data, p, e, i + 1, k);
    }
  }

  lemma ByteAt(data: seq<Byte>, p: nat, e: seq<Byte>, k: nat)
    requires BytesAt(data, p, e) && k < |e|
    ensures data[p + k] == e[k]
  {
    ByteFrom(data, p, e, 0, k);
  }

  lemma {:induction false} PointwiseFrom(data: seq<Byte>, p: nat, e: seq<Byte>, i: nat)
    requires p + |e| <= |data|
    requires forall k :: i <= k < |e| ==> data[p + k] == e[k]
    ensures BytesFrom(data, p, e, i)
    decreases |e| - i
  {
    if i < |e| {
      PointwiseFrom(data, p, e, i + 1);
    }
  }

  lemma Pointwise(data: seq<Byte>, p: nat, e: seq<Byte>)
    requires p + |e| <= |data|
    requires forall k :: 0 <= k < |e| ==> data[p + k] == e[k]
    ensures BytesAt(data, p, e)
  {
    PointwiseFrom(data, p, e, 0);
  }

  lemma SplitAt(data: seq<Byte>, p: nat, a: seq<Byte>, b: seq<Byte>)
    requires BytesAt(data, p, a + b)
    ensures BytesAt(data, p, a) && BytesAt(data, p + |a|, b)
  {
    forall k | 0 <= k < |a| ensures data[p + k] == a[k] {
      ByteAt(data, p, a + b, k);
    }
    Pointwise(data, p, a);
    forall k | 0 <= k < |b| ensures data[p + |a| + k] == b[k] {
      ByteAt(data, p, a + b, |a| + k);
    }
    Pointwise(data, p + |a|, b);
  }

  /** Reading four bytes that encode `n` gives `n`. */
  lemma ReadU32Encoded(data: seq<Byte>, p: nat, n: nat)
    requires n < Limit && BytesAt(data, p, U32(n))
    ensures ReadU32(data, p) == Some(n)
  {
    var r := U32(n);
    ByteAt(data, p, r, 0);
    ByteAt(data, p, r, 1);
    ByteAt(data, p, r, 2);
    ByteAt(data, p, r, 3);
  }

  /** Slicing where `e` lies gives `e`. */
  lemma SliceEncoded(data: seq<Byte>, p: nat, e: seq<Byte>)
    requires BytesAt(data, p, e)
    ensures Slice(data, p, |e|) == e
  {
    SliceWindow(data, p, |e|);
    forall k | 0 <= k < |e| ensures data[p..p + |e|][k] == e[k] {
      ByteAt(data, p, e, k);
    }
  }

  lemma MagicEncoded(data: seq<Byte>)
    requires BytesAt(data, 0, Magic)
    ensures HasMagic(data)
  {
    SliceEncoded(data, 0, Magic);
    SliceWindow(data, 0, 5);
  }

  predicate ArgsFit(args: seq<seq<Byte>>)
  {
    forall i :: 0 <= i < |args| ==> |args[i]| < Limit
  }

  /** Each argument as a 32-bit length followed by its bytes. */
  function EncodeArgs(args: seq<seq<Byte>>): seq<Byte>
    requires ArgsFit(args)
  {
    if args == [] then [] else U32(|args[0]|) + args[0] + EncodeArgs(args[1..])
  }

  /** One pass of the argument loop followed by the remaining passes. */
  lemma ArgsStep(data: seq<Byte>, p: nat, a: seq<Byte>, rest: seq<seq<Byte>>, r: nat, count: nat)
    requires ReadU32(data, p) == Some(|a|) && Slice(data, p + 4, |a|) == a
    requires ReadArgs(data, p + 4 + |a|, count) == Some((rest, r))
    ensures ReadArgs(data, p, count + 1) == Some(([a] + rest, r))
  {
  }

  /** The argument loop, one argument at a time. */
  lemma ArgsCons(data: seq<Byte>, p: nat, args: seq<seq<Byte>>, r: nat)
    requires args != []
    requires ReadU32(data, p) == Some(|args[0]|) && Slice(data, p + 4, |args[0]|) == args[0]
    requires ReadArgs(data, p + 4 + |args[0]|, |args[1..]|) == Some((args[1..], r))
    ensures ReadArgs(data, p, |args|) == Some((args, r))
  {
    ArgsStep(data, p, args[0], args[1..], r, |args[1..]|);
    assert |args| == |args[1..]| + 1;
    assert [args[0]] + args[1..] == args;
  }

  /** The first argument's length and bytes, then the others'. */
  lemma ArgsSplit(data: seq<Byte>, p: nat, args: seq<seq<Byte>>)
    requires args != [] && ArgsFit(args) && BytesAt(data, p, EncodeArgs(args))
    ensures ArgsFit(args[1..])
    ensures ReadU32(data, p) == Some(|args[0]|) && Slice(data, p + 4, |args[0]|) == args[0]
    ensures BytesAt(data, p + 4 + |args[0]|, EncodeArgs(args[1..]))
    ensures |EncodeArgs(args)| == 4 + |args[0]| + |EncodeArgs(args[1..])|
  {
    var a := args[0];
    assert forall i :: 0 <= i < |args[1..]| ==> args[1..][i] == args[i + 1];
    SplitAt(data, p, U32(|a|) + a, EncodeArgs(args[1..]));
    SplitAt(data, p, U32(|a|), a);
    ReadU32Encoded(data, p, |a|);
    SliceEncoded(data, p + 4, a);
  }

  /** The argument loop reads back encoded arguments. */
  lemma {:induction false} ReadArgsEncoded(data: seq<Byte>, p: nat, args: seq<seq<Byte>>)
    requires ArgsFit(args) && BytesAt(data, p, EncodeArgs(args))
    ensures ReadArgs(data, p, |args|) == Some((args, p + |EncodeArgs(args)|))
    decreases |args|
  {
    if args != [] {
      ArgsSplit(data, p, args);
      ReadArgsEncoded(data, p + 4 + |args[0]|, args[1..]);
      ArgsCons(data, p, args, p + |EncodeArgs(args)|);
    }
  }

  /** An object as written: its name and its data bytes. */
  datatype ObjectImage = ObjectImage(name: seq<Byte>, bytes: seq<Byte>)

  predicate ObjectsFit(objects: seq<ObjectImage>)
  {
    forall i :: 0 <= i < |objects| ==> |objects[i].name| < Limit && |objects[i].bytes| < Limit
  }

  function EncodeObject(o: ObjectImage): seq<Byte>
    requires |o.name| < Limit && |o.bytes| < Limit
  {
    U32(|o.name|) + o.name + U32(|o.bytes|) + o.bytes
  }

  function EncodeObjects(objects: seq<ObjectImage>): seq<Byte>
    requires ObjectsFit(objects)
  {
    if objects == [] then [] else EncodeObject(objects[0]) + EncodeObjects(objects[1..])
  }

  /** The object the decoder reports for a written object: its size is the data length. */
  function Decoded(o: ObjectImage): KObject
  {
    KObject(o.name, |o.bytes|, o.bytes)
  }

  function DecodedAll(objects: seq<ObjectImage>): (r: seq<KObject>)
    ensures |r| == |objects|
  {
    if objects == [] then [] else [Decoded(objects[0])] + DecodedAll(objects[1..])
  }

  /** The four fields of one object, in order. */
  lemma Split4(data: seq<Byte>, p: nat, a: seq<Byte>, b: seq<Byte>, c: seq<Byte>, d: seq<Byte>)
    requires BytesAt(data, p, a + b + c + d)
    ensures BytesAt(data, p, a) && BytesAt(data, p + |a|, b)
    ensures BytesAt(data, p + |a| + |b|, c) && BytesAt(data, p + |a| + |b| + |c|, d)
  {
    SplitAt(data, p, a + b + c, d);
    SplitAt(data, p, a + b, c);
    SplitAt(data, p, a, b);
  }

  /** One pass of the object loop, given what its reads return; `bytes` may be shorter
      than the declared length `m`. */
  lemma ObjectRead(data: seq<Byte>, p: nat, name: seq<Byte>, m: nat, bytes: seq<Byte>)
    requires ReadU32(data, p) == Some(|name|) && Slice(data, p + 4, |name|) == name
    requires ReadU32(data, p + 4 + |name|) == Some(m)
    requires Slice(data, p + 8 + |name|, m) == bytes
    ensures ReadObject(data, p) == Some((KObject(name, m, bytes), p + 8 + |name| + m))
  {
  }

  lemma ReadObjectEncoded(data: seq<Byte>, p: nat, o: ObjectImage)
    requires |o.name| < Limit && |o.bytes| < Limit && BytesAt(data, p, EncodeObject(o))
    ensures ReadObject(data, p) == Some((Decoded(o), p + |EncodeObject(o)|))
  {
    var n := |o.name|;
    Split4(data, p, U32(n), o.name, U32(|o.bytes|), o.bytes);
    ReadU32Encoded(data, p, n);
    SliceEncoded(data, p + 4, o.name);
    ReadU32Encoded(data, p + 4 + n, |o.bytes|);
    SliceEncoded(data, p + 8 + n, o.bytes);
    ObjectRead(data, p, o.name, |o.bytes|, o.bytes);
  }

  /** One pass of the object loop followed by the remaining passes. */
  lemma ObjectsStep(data: seq<Byte>, p: nat, obj: KObject, q: nat, rest: seq<KObject>, r: nat, count: nat)
    requires ReadObject(data, p) == Some((obj, q))
    requires ReadObjects(data, q, count) == Some((rest, r))
    ensures ReadObjects(data, p, count + 1) == Some(([obj] + rest, r))
  {
  }

  /** The object loop reads back encoded objects. */
  lemma {:induction false} ReadObjectsEncoded(data: seq<Byte>, p: nat, objects: seq<ObjectImage>)
    requires ObjectsFit(objects) && BytesAt(data, p, EncodeObjects(objects))
    ensures ReadObjects(data, p, |objects|) == Some((DecodedAll(objects), p + |EncodeObjects(objects)|))
    decreases |objects|
  {
    if objects != [] {
      ObjectsSplit(data, p, objects);
      ReadObjectEncoded(data, p, objects[0]);
      ReadObjectsEncoded(data, p + |EncodeObject(objects[0])|, objects[1..]);
      ObjectsEncodedCons(data, p, objects, p + |EncodeObject(objects[0])|, p + |EncodeObjects(objects)|);
    }
  }

  /** The induction step: the first object read to `q`, then the others read to `r`. */
  lemma ObjectsEncodedCons(data: seq<Byte>, p: nat, objects: seq<ObjectImage>, q: nat, r: nat)
    requires objects != [] && ReadObject(data, p) == Some((Decoded(objects[0]), q))
    requires ReadObjects(data, q, |objects[1..]|) == Some((DecodedAll(objects[1..]), r))
    ensures ReadObjects(data, p, |objects|) == Some((DecodedAll(objects), r))
  {
    var tail := objects[1..];
    ObjectsStep(data, p, Decoded(objects[0]), q, DecodedAll(tail), r, |tail|);
    assert |objects| == |tail| + 1;
    assert DecodedAll(objects) == [Decoded(objects[0])] + DecodedAll(tail);
  }

  /** The first object's bytes, then the others'. */
  lemma ObjectsSplit(data: seq<Byte>, p: nat, objects: seq<ObjectImage>)
    requires objects != [] && ObjectsFit(objects) && BytesAt(data, p, EncodeObjects(objects))
    ensures ObjectsFit(objects[1..])
    ensures BytesAt(data, p, EncodeObject(objects[0]))
    ensures BytesAt(data, p + |EncodeObject(objects[0])|, EncodeObjects(objects[1..]))
    ensures |EncodeObjects(objects)| == |EncodeObject(objects[0])| + |EncodeObjects(objects[1..])|
  {
    assert forall i :: 0 <= i < |objects[1..]| ==> objects[1..][i] == objects[i + 1];
    SplitAt(data, p, EncodeObject(objects[0]), EncodeObjects(objects[1..]));
  }

  /** A whole test as written: the symbolic-argument fields are written only for version 2
      and later. */
  datatype Image = Image(
    version: nat,
    args: seq<seq<Byte>>,
    symArgvs: nat,
    symData: seq<Byte>,
    objects: seq<ObjectImage>)
  {
    predicate Fits()
    {
      && version < Limit && |args| < Limit && ArgsFit(args)
      && symArgvs < Limit && |symData| < Limit
      && |objects| < Limit && ObjectsFit(objects)
    }
  }

  function SymBlock(img: Image): seq<Byte>
    requires img.Fits()
  {
    if img.version >= 2 then U32(img.symArgvs) + U32(|img.symData|) + img.symData else []
  }

  function Encode(img: Image): (r: seq<Byte>)
    requires img.Fits()
  {
    Magic + U32(img.version) + U32(|img.args|) + EncodeArgs(img.args)
    + SymBlock(img) + U32(|img.objects|) + EncodeObjects(img.objects)
  }

  /** The symbolic-argument block is skipped exactly, whatever it holds. */
  lemma SkipEncoded(data: seq<Byte>, img: Image, p: nat)
    requires img.Fits() && BytesAt(data, p, SymBlock(img))
    ensures SkipSymArgs(data, img.version, p) == Some(p + |SymBlock(img)|)
  {
    if img.version >= 2 {
      SplitAt(data, p, U32(img.symArgvs) + U32(|img.symData|), img.symData);
      SplitAt(data, p, U32(img.symArgvs), U32(|img.symData|));
      ReadU32Encoded(data, p, img.symArgvs);
      ReadU32Encoded(data, p + 4, |img.symData|);
    }
  }

  /** The decoder's path through the header of a buffer. */
  lemma HeaderStages(data: seq<Byte>, version: nat, args: seq<seq<Byte>>, p: nat)
    requires HasMagic(data)
    requires ReadU32(data, 5) == Some(version) && ReadU32(data, 9) == Some(|args|)
    requires ReadArgs(data, 13, |args|) == Some((args, p))
    ensures Decode(data) == DecodeObjects(data, version, args, p)
  {
  }

  /** The decoder's path through the rest of a buffer. */
  lemma TailStages(data: seq<Byte>, img: Image, p: nat)
    requires img.Fits() && TailFacts(data, img, p)
    ensures DecodeObjects(data, img.version, img.args, p)
            == Valid(KTest(img.version, img.args, DecodedAll(img.objects)))
  {
  }

  /** The header of the test `img` lies where the layout puts it: the magic, the version,
      the argument count and the arguments, one after the other from offset 0. */
  predicate HeadLaidOut(data: seq<Byte>, img: Image)
    requires img.Fits()
  {
    && BytesAt(data, 0, Magic) && BytesAt(data, 5, U32(img.version))
    && BytesAt(data, 9, U32(|img.args|)) && BytesAt(data, 13, EncodeArgs(img.args))
  }

  /** The rest of the test `img` lies where the layout puts it: the symbolic-argument block,
      the object count and the objects, one after the other after the arguments. */
  predicate TailLaidOut(data: seq<Byte>, img: Image)
    requires img.Fits()
  {
    var p := 13 + |EncodeArgs(img.args)|;
    && BytesAt(data, p, SymBlock(img))
    && BytesAt(data, p + |SymBlock(img)|, U32(|img.objects|))
    && BytesAt(data, p + |SymBlock(img)| + 4, EncodeObjects(img.objects))
  }

  /** A buffer that starts with an encoded test has its parts laid out. */
  lemma Layout(data: seq<Byte>, img: Image)
    requires img.Fits() && BytesAt(data, 0, Encode(img))
    ensures HeadLaidOut(data, img) && TailLaidOut(data, img)
  {
    Split7(data, Magic, U32(img.version), U32(|img.args|), EncodeArgs(img.args),
           SymBlock(img), U32(|img.objects|), EncodeObjects(img.objects));
  }

  lemma Split7(data: seq<Byte>, a: seq<Byte>, b: seq<Byte>, c: seq<Byte>, d: seq<Byte>,
               e: seq<Byte>, f: seq<Byte>, g: seq<Byte>)
    requires BytesAt(data, 0, a + b + c + d + e + f + g)
    ensures BytesAt(data, 0, a) && BytesAt(data, |a|, b) && BytesAt(data, |a + b|, c)
    ensures BytesAt(data, |a + b + c|, d) && BytesAt(data, |a + b + c + d|, e)
    ensures BytesAt(data, |a + b + c + d + e|, f) && BytesAt(data, |a + b + c + d + e + f|, g)
  {
    SplitAt(data, 0, a + b + c + d + e + f, g);
    SplitAt(data, 0, a + b + c + d + e, f);
    SplitAt(data, 0, a + b + c + d, e);
    SplitAt(data, 0, a + b + c, d);
    SplitAt(data, 0, a + b, c);
    SplitAt(data, 0, a, b);
  }

  /** The header reads: the magic, the version, the argument count and the arguments. */
  lemma HeaderReads(data: seq<Byte>, version: nat, args: seq<seq<Byte>>)
    requires version < Limit && |args| < Limit && ArgsFit(args)
    requires BytesAt(data, 0, Magic) && BytesAt(data, 5, U32(version))
    requires BytesAt(data, 9, U32(|args|)) && BytesAt(data, 13, EncodeArgs(args))
    ensures HasMagic(data) && ReadU32(data, 5) == Some(version) && ReadU32(data, 9) == Some(|args|)
    ensures ReadArgs(data, 13, |args|) == Some((args, 13 + |EncodeArgs(args)|))
  {
    MagicEncoded(data);
    ReadU32Encoded(data, 5, version);
    ReadU32Encoded(data, 9, |args|);
    ReadArgsEncoded(data, 13, args);
  }

  /** What the decoder reads after the arguments, from offset `p`: the skipped block, the
      object count and the objects of `img`. */
  predicate TailFacts(data: seq<Byte>, img: Image, p: nat)
    requires img.Fits()
  {
    var q := p + |SymBlock(img)|;
    && SkipSymArgs(data, img.version, p) == Some(q)
    && ReadU32(data, q) == Some(|img.objects|)
    && ReadObjects(data, q + 4, |img.objects|)
       == Some((DecodedAll(img.objects), q + 4 + |EncodeObjects(img.objects)|))
  }

  /** The reads after the arguments return what was written. */
  lemma TailReads(data: seq<Byte>, img: Image, p: nat)
    requires img.Fits() && BytesAt(data, p, SymBlock(img))
    requires BytesAt(data, p + |SymBlock(img)|, U32(|img.objects|))
    requires BytesAt(data, p + |SymBlock(img)| + 4, EncodeObjects(img.objects))
    ensures TailFacts(data, img, p)
  {
    var q := p + |SymBlock(img)|;
    SkipEncoded(data, img, p);
    ReadU32Encoded(data, q, |img.objects|);
    ReadObjectsEncoded(data, q + 4, img.objects);
  }

  /** The header reads on a laid-out test return what was written. */
  lemma EncodedHeader(data: seq<Byte>, img: Image)
    requires img.Fits() && HeadLaidOut(data, img)
    ensures HasMagic(data) && ReadU32(data, 5) == Some(img.version)
    ensures ReadU32(data, 9) == Some(|img.args|)
    ensures ReadArgs(data, 13, |img.args|) == Some((img.args, 13 + |EncodeArgs(img.args)|))
  {
    HeaderReads(data, img.version, img.args);
  }

  /** The header of a laid-out test leads the decoder to its object stage. */
  lemma HeaderDecode(data: seq<Byte>, img: Image)
    requires img.Fits() && HeadLaidOut(data, img)
    ensures Decode(data) == DecodeObjects(data, img.version, img.args, 13 + |EncodeArgs(img.args)|)
  {
    EncodedHeader(data, img);
    HeaderStages(data, img.version, img.args, 13 + |EncodeArgs(img.args)|);
  }

  /** The rest of a laid-out test gives back its objects. */
  lemma TailDecode(data: seq<Byte>, img: Image)
    requires img.Fits() && TailLaidOut(data, img)
    ensures DecodeObjects(data, img.version, img.args, 13 + |EncodeArgs(img.args)|)
            == Valid(KTest(img.version, img.args, DecodedAll(img.objects)))
  {
    TailReads(data, img, 13 + |EncodeArgs(img.args)|);
    TailStages(data, img, 13 + |EncodeArgs(img.args)|);
  }

  /** A buffer holding a laid-out test decodes to that test. */
  lemma DecodeLaidOut(data: seq<Byte>, img: Image)
    requires img.Fits() && HeadLaidOut(data, img) && TailLaidOut(data, img)
    ensures Decode(data) == Valid(KTest(img.version, img.args, DecodedAll(img.objects)))
  {
    HeaderDecode(data, img);
    TailDecode(data, img);
  }

  /** Decoding an encoded test, followed by any bytes at all, gives the test back: the
      version, the arguments, and each object with its name, its size and its data. */
  lemma DecodeEncode(img: Image, trailing: seq<Byte>)
    requires img.Fits()
    ensures Decode(Encode(img) + trailing) == Valid(KTest(img.version, img.args, DecodedAll(img.objects)))
  {
    var e := Encode(img);
    Pointwise(e + trailing, 0, e);
    Layout(e + trailing, img);
    DecodeLaidOut(e + trailing, img);
  }

  /** The `w` low bytes of `v`, least significant first. */
  function EncodeLE(v: nat, w: nat): (r: seq<Byte>)
    ensures |r| == w
  {
    if w == 0 then [] else [v % 256] + EncodeLE(v / 256, w - 1)
  }

  lemma {:induction false} LittleEndianEncodeLE(v: nat, w: nat)
    requires v < Pow256(w)
    ensures LittleEndian(EncodeLE(v, w)) == v
    decreases w
  {
    if w > 0 {
      var r := EncodeLE(v, w);
      assert r[1..] == EncodeLE(v / 256, w - 1);
      LittleEndianEncodeLE(v / 256, w - 1);
    }
  }

  /** The two's-complement image of `v` in `w` bytes, as a C program stores a signed integer
      of that width on a little-endian machine. */
  function TwosComplement(v: int, w: nat): (r: seq<Byte>)
    requires w >= 1 && -(Pow256(w) / 2) <= v < Pow256(w) / 2
    ensures |r| == w
  {
    if v >= 0 then EncodeLE(v, w) else EncodeLE(v + Pow256(w), w)
  }

  /** The signed reading of a two's-complement image gives the integer back. */
  lemma SignedRoundTrip(v: int, w: nat)
    requires w >= 1 && -(Pow256(w) / 2) <= v < Pow256(w) / 2
    ensures SignedLittleEndian(TwosComplement(v, w)) == v
  {
    if v >= 0 {
      LittleEndianEncodeLE(v, w);
    } else {
      LittleEndianEncodeLE(v + Pow256(w), w);
    }
  }

  /** An encoded object of a standard width holding a two's-complement integer reports
      that integer as its `int_value`. */
  lemma IntValueRoundTrip(name: seq<Byte>, v: int, w: nat)
    requires w in {1, 2, 4, 8} && -(Pow256(w) / 2) <= v < Pow256(w) / 2
    ensures Decoded(ObjectImage(name, TwosComplement(v, w))).IntValue() == Int(v)
  {
    SignedRoundTrip(v, w);
  }

  /** An object whose declared data length runs past the end of the buffer is still
      reported, with the declared size and only the bytes that are there. */
  lemma TruncatedObject(data: seq<Byte>, p: nat, name: seq<Byte>, m: nat)
    requires |name| < Limit && m < Limit
    requires BytesAt(data, p, U32(|name|) + name + U32(m))
    requires |data| < p + 8 + |name| + m
    ensures ReadObject(data, p)
            == Some((KObject(name, m, data[p + 8 + |name|..]), p + 8 + |name| + m))
    ensures |data[p + 8 + |name|..]| < m
  {
    SplitAt(data, p, U32(|name|) + name, U32(m));
    SplitAt(data, p, U32(|name|), name);
    ReadU32Encoded(data, p, |name|);
    SliceEncoded(data, p + 4, name);
    ReadU32Encoded(data, p + 4 + |name|, m);
    SliceWindow(data, p + 8 + |name|, m);
    assert Slice(data, p + 8 + |name|, m) == data[p + 8 + |name|..];
    ObjectRead(data, p, name, m, data[p + 8 + |name|..]);
  }
}
