/** The bytes of the packets: what a body looks like on the wire, for both ends. Floats are 32-bit
    patterns. */
module Wire {
  import opened TextStream

  type byte = x: int | 0 <= x < 0x100
  type u32 = x: int | 0 <= x < 0x1_0000_0000

  function U32Bytes(n: u32): seq<byte> {
    [n / 0x100_0000, n / 0x1_0000 % 0x100, n / 0x100 % 0x100, n % 0x100]
  }

  function U32Of(a: byte, b: byte, c: byte, d: byte): u32 {
    a * 0x100_0000 + b * 0x1_0000 + c * 0x100 + d
  }

  lemma U32Back(n: u32)
    ensures var s := U32Bytes(n); U32Of(s[0], s[1], s[2], s[3]) == n
  {
    var x, y := n / 0x100, n / 0x1_0000;
    assert n == x * 0x100 + n % 0x100;
    assert x == y * 0x100 + x % 0x100 && x / 0x100 == y;
    assert y == (n / 0x100_0000) * 0x100 + y % 0x100 && y / 0x100 == n / 0x100_0000;
  }

  /** A length as the 32-bit count that is written. */
  function Count(n: nat): u32 {
    n % 0x1_0000_0000
  }

  // ---------------------------------------------------------------- structs

  datatype Login = Login(state: u32, userid: u32, usertype: u32, username: string, password: string)

  /** Position and orientation. */
  datatype Place = Place(px: u32, py: u32, pz: u32, ox: u32, oy: u32, oz: u32, ow: u32)

  datatype CreateStruct = CreateStruct(sessionid: u32, mode: u32, displayName: string, place: Place)

  /** A `TransformStruct`, a step of a path. */
  datatype Node = Node(action: u32, place: Place)

  datatype TransformEntity = TransformEntity(sessionid: u32, path: seq<Node>)

  datatype Objects = Objects(state: u32, clip: u32, ids: seq<u32>)

  datatype Update = Update(state: u32, creates: seq<CreateStruct>, destroys: seq<u32>)

  // ---------------------------------------------------------------- strings

  /** The characters of a C++ string are bytes. */
  ghost predicate IsBytes(s: string) {
    forall i | 0 <= i < |s| :: s[i] < 256 as char
  }

  ghost predicate IsAscii(s: string) {
    forall i | 0 <= i < |s| :: s[i] < 128 as char
  }

  function Chars(s: string): (r: seq<byte>)
    ensures |r| == |s| && forall i | 0 <= i < |s| :: r[i] == s[i] as int % 0x100
  {
    seq(|s|, i requires 0 <= i < |s| => s[i] as int % 0x100)
  }

  function StringBytes(s: string): seq<byte> {
    U32Bytes(Count(|s|)) + Chars(s)
  }

  // ---------------------------------------------------------------- encodings

  function Each<T(!new)>(bytes: T -> seq<byte>, xs: seq<T>): seq<byte> {
    if xs == [] then [] else bytes(xs[0]) + Each(bytes, xs[1..])
  }

  /** A count and the elements. */
  function Many<T(!new)>(bytes: T -> seq<byte>, xs: seq<T>): seq<byte> {
    U32Bytes(Count(|xs|)) + Each(bytes, xs)
  }

  lemma {:induction false} EachAdd<T(!new)>(bytes: T -> seq<byte>, xs: seq<T>, x: T)
    ensures Each(bytes, xs + [x]) == Each(bytes, xs) + bytes(x)
  {
    if xs == [] {
      assert xs + [x] == [x] && [x][1..] == [];
    } else {
      EachAdd(bytes, xs[1..], x);
      assert (xs + [x])[1..] == xs[1..] + [x];
    }
  }

  /** One round of the loop of the list writers. */
  lemma {:induction false} EachNext<T(!new)>(start: seq<byte>, bytes: T -> seq<byte>, xs: seq<T>, i: nat)
    requires i < |xs|
    ensures start + Each(bytes, xs[..i]) + bytes(xs[i]) == start + Each(bytes, xs[..i + 1])
  {
    EachAdd(bytes, xs[..i], xs[i]);
    assert xs[..i + 1] == xs[..i] + [xs[i]];
    Assoc(start, Each(bytes, xs[..i]), bytes(xs[i]));
  }

  lemma {:induction false} ManyWritten<T(!new)>(start: seq<byte>, bytes: T -> seq<byte>, xs: seq<T>)
    ensures start + U32Bytes(Count(|xs|)) + Each(bytes, xs[..|xs|]) == start + Many(bytes, xs)
    ensures start + Each(bytes, xs[..0]) == start
  {
    assert xs[..|xs|] == xs;
    Assoc(start, U32Bytes(Count(|xs|)), Each(bytes, xs));
  }

  lemma {:induction false} AddThree<T>(start: seq<T>, a: seq<T>, b: seq<T>, c: seq<T>)
    ensures start + a + b + c == start + (a + b + c)
  {
  }

  lemma {:induction false} AddFive<T>(start: seq<T>, a: seq<T>, b: seq<T>, c: seq<T>, d: seq<T>, e: seq<T>)
    ensures start + a + b + c + d + e == start + (a + b + c + d + e)
  {
  }

  function LoginBytes(l: Login): seq<byte> {
    U32Bytes(l.state) + U32Bytes(l.userid) + U32Bytes(l.usertype) + StringBytes(l.username) + StringBytes(l.password)
  }

  function PlaceBytes(p: Place): seq<byte> {
    U32Bytes(p.px) + U32Bytes(p.py) + U32Bytes(p.pz) + U32Bytes(p.ox) + U32Bytes(p.oy) + U32Bytes(p.oz) + U32Bytes(p.ow)
  }

  function CreateBytes(c: CreateStruct): seq<byte> {
    U32Bytes(c.sessionid) + U32Bytes(c.mode) + StringBytes(c.displayName) + PlaceBytes(c.place)
  }

  function NodeBytes(n: Node): seq<byte> {
    U32Bytes(n.action) + PlaceBytes(n.place)
  }

  function TransformBytes(t: TransformEntity): seq<byte> {
    U32Bytes(t.sessionid) + Many(NodeBytes, t.path)
  }

  function ObjectsBytes(o: Objects): seq<byte> {
    U32Bytes(o.state) + U32Bytes(o.clip) + Many(U32Bytes, o.ids)
  }

  function UpdateBytes(u: Update): seq<byte> {
    U32Bytes(u.state) + Many(CreateBytes, u.creates) + Many(U32Bytes, u.destroys)
  }

  // ---------------------------------------------------------------- reading

  /** The bytes that are still to be read; none after a read that throws or is undefined. */
  type Cursor = Option<seq<byte>>

  datatype Next<+T> = Next(value: T, rest: Cursor)

  type Reader<!T> = Cursor -> Next<T>

  /** The loop of the list readers. */
  function ReadMany<T(!new)>(n: nat, read: Reader<T>, c: Cursor): Next<seq<T>> {
    if n == 0 then Next([], c)
    else
      var xs := ReadMany(n - 1, read, c);
      var x := read(xs.rest);
      Next(xs.value + [x.value], x.rest)
  }

  /** A count and as many elements. */
  function ReadCounted<T(!new)>(count: Reader<u32>, read: Reader<T>, c: Cursor): Next<seq<T>> {
    var size := count(c);
    ReadMany(size.value, read, size.rest)
  }

  /** Seven numbers in a row, with the reader for one. */
  function ReadPlace(read: Reader<u32>, c: Cursor): Next<Place> {
    var px := read(c);
    var py := read(px.rest);
    var pz := read(py.rest);
    var ox := read(pz.rest);
    var oy := read(ox.rest);
    var oz := read(oy.rest);
    var ow := read(oz.rest);
    Next(Place(px.value, py.value, pz.value, ox.value, oy.value, oz.value, ow.value), ow.rest)
  }

  /** A reader that takes exactly the bytes of a value, whatever follows. */
  ghost predicate Recovers<T(!new)>(read: Reader<T>, bytes: seq<byte>, x: T) {
    forall rest :: read(Some(bytes + rest)) == Next(x, Some(rest))
  }

  /** Reading a list element by element recovers what each element is read as. */
  lemma {:induction false} ManyRecovered<T(!new)>(read: Reader<T>, bytes: T -> seq<byte>, xs: seq<T>, ys: seq<T>,
                                                  rest: seq<byte>)
    requires |xs| == |ys| && forall i | 0 <= i < |xs| :: Recovers(read, bytes(xs[i]), ys[i])
    ensures ReadMany(|xs|, read, Some(Each(bytes, xs) + rest)) == Next(ys, Some(rest))
  {
    if xs == [] {
      assert [] + rest == rest;
    } else {
      var n := |xs| - 1;
      assert xs == xs[..n] + [xs[n]] && ys == ys[..n] + [ys[n]];
      EachAdd(bytes, xs[..n], xs[n]);
      Assoc(Each(bytes, xs[..n]), bytes(xs[n]), rest);
      assert Recovers(read, bytes(xs[n]), ys[n]);
      assert read(Some(bytes(xs[n]) + rest)) == Next(ys[n], Some(rest));
      ManyRecovered(read, bytes, xs[..n], ys[..n], bytes(xs[n]) + rest);
    }
  }

  ghost predicate RecoversNumbers(read: Reader<u32>) {
    forall n: u32 :: Recovers(read, U32Bytes(n), n)
  }

  lemma {:induction false} CountedIs<T(!new)>(count: Reader<u32>, read: Reader<T>, n: nat, body: seq<byte>,
                                              rest: seq<byte>)
    requires n < 0x1_0000_0000 && RecoversNumbers(count)
    ensures ReadCounted(count, read, Some(U32Bytes(Count(n)) + body + rest)) == ReadMany(n, read, Some(body + rest))
  {
    Assoc(U32Bytes(Count(n)), body, rest);
    assert Recovers(count, U32Bytes(Count(n)), Count(n));
    assert count(Some(U32Bytes(Count(n)) + (body + rest))) == Next(Count(n), Some(body + rest));
  }

  lemma {:induction false} CountedRecovered<T(!new)>(count: Reader<u32>, read: Reader<T>, bytes: T -> seq<byte>,
                                                     xs: seq<T>, ys: seq<T>, rest: seq<byte>)
    requires |xs| < 0x1_0000_0000 && RecoversNumbers(count)
    requires |xs| == |ys| && forall i | 0 <= i < |xs| :: Recovers(read, bytes(xs[i]), ys[i])
    ensures ReadCounted(count, read, Some(Many(bytes, xs) + rest)) == Next(ys, Some(rest))
  {
    CountedIs(count, read, |xs|, Each(bytes, xs), rest);
    ManyRecovered(read, bytes, xs, ys, rest);
  }
}
