/** The two codecs agree: each end's readers recover what the other end's writers wrote, and take
    exactly the bytes of it. */
module CodecAgreement {
  import opened TextStream
  import opened Wire
  import S = CodecServer
  import C = CodecClient

  /** A string that either end can hold, and whose length fits its count. */
  ghost predicate Fits(s: string) {
    IsBytes(s) && |s| < 0x1_0000_0000
  }

  ghost predicate Short<T>(s: seq<T>) {
    |s| < 0x1_0000_0000
  }

  // ---------------------------------------------------------------- numbers and strings

  lemma U32Read(n: u32, rest: seq<byte>)
    ensures S.U32(Some(U32Bytes(n) + rest)) == Next(n, Some(rest))
    ensures C.U32(Some(U32Bytes(n) + rest)) == Next(n, Some(rest))
    ensures C.Float(Some(U32Bytes(n) + rest)) == Next(n, Some(rest))
  {
    U32Back(n);
    assert (U32Bytes(n) + rest)[4..] == rest;
  }

  lemma NumbersRecovered()
    ensures RecoversNumbers(S.U32) && RecoversNumbers(C.U32) && RecoversNumbers(C.Float)
  {
    forall n: u32
      ensures Recovers(S.U32, U32Bytes(n), n) && Recovers(C.U32, U32Bytes(n), n) && Recovers(C.Float, U32Bytes(n), n)
    {
      forall rest
        ensures S.U32(Some(U32Bytes(n) + rest)) == Next(n, Some(rest))
        ensures C.U32(Some(U32Bytes(n) + rest)) == Next(n, Some(rest))
        ensures C.Float(Some(U32Bytes(n) + rest)) == Next(n, Some(rest))
      {
        U32Read(n, rest);
      }
    }
  }

  lemma StringStarts(s: string, rest: seq<byte>)
    requires Short(s)
    ensures var tail := Chars(s) + rest;
            && S.U32(Some(StringBytes(s) + rest)) == Next(|s|, Some(tail))
            && C.U32(Some(StringBytes(s) + rest)) == Next(|s|, Some(tail))
            && tail[..|s|] == Chars(s) && tail[|s|..] == rest
  {
    Assoc(U32Bytes(Count(|s|)), Chars(s), rest);
    U32Read(Count(|s|), Chars(s) + rest);
  }

  lemma TextBack(s: string)
    requires IsBytes(s)
    ensures S.Text(Chars(s)) == s
  {
    forall i | 0 <= i < |s| ensures S.Text(Chars(s))[i] == s[i] {
    }
  }

  /** The server's reader gives a string back. */
  lemma ServerString(s: string, rest: seq<byte>)
    requires Fits(s)
    ensures S.Str(Some(StringBytes(s) + rest)) == Next(s, Some(rest))
  {
    StringStarts(s, rest);
    TextBack(s);
    assert s == "" ==> Chars(s) + rest == rest;
  }

  lemma AsciiBack(s: string)
    requires IsBytes(s)
    ensures C.Text(Chars(s)) == C.Ascii(s)
  {
    forall i | 0 <= i < |s| ensures C.Text(Chars(s))[i] == C.Ascii(s)[i] {
    }
  }

  /** The client's reader gives its ASCII characters back. */
  lemma ClientString(s: string, rest: seq<byte>)
    requires Fits(s)
    ensures C.Str(Some(StringBytes(s) + rest)) == Next(C.Ascii(s), Some(rest))
  {
    StringStarts(s, rest);
    AsciiBack(s);
  }

  lemma AsciiFits(s: string)
    requires Short(s)
    ensures Fits(C.Ascii(s))
  {
    C.AsciiIff(s);
  }

  // ---------------------------------------------------------------- places

  lemma {:induction false} Split7(a: seq<byte>, b: seq<byte>, c: seq<byte>, d: seq<byte>, e: seq<byte>, f: seq<byte>,
                                  g: seq<byte>, rest: seq<byte>)
    ensures a + b + c + d + e + f + g + rest == a + (b + (c + (d + (e + (f + (g + rest))))))
  {
  }

  lemma {:induction false} PlaceRead(read: Reader<u32>, p: Place, rest: seq<byte>)
    requires RecoversNumbers(read)
    ensures ReadPlace(read, Some(PlaceBytes(p) + rest)) == Next(p, Some(rest))
  {
    var (a, b, c, d, e, f, g) :=
      (U32Bytes(p.px), U32Bytes(p.py), U32Bytes(p.pz), U32Bytes(p.ox), U32Bytes(p.oy), U32Bytes(p.oz), U32Bytes(p.ow));
    Split7(a, b, c, d, e, f, g, rest);
    OneRead(read, p.px, b + (c + (d + (e + (f + (g + rest))))));
    OneRead(read, p.py, c + (d + (e + (f + (g + rest)))));
    OneRead(read, p.pz, d + (e + (f + (g + rest))));
    OneRead(read, p.ox, e + (f + (g + rest)));
    OneRead(read, p.oy, f + (g + rest));
    OneRead(read, p.oz, g + rest);
    OneRead(read, p.ow, rest);
  }

  lemma {:induction false} OneRead(read: Reader<u32>, n: u32, rest: seq<byte>)
    requires RecoversNumbers(read)
    ensures read(Some(U32Bytes(n) + rest)) == Next(n, Some(rest))
  {
    assert Recovers(read, U32Bytes(n), n);
  }

  lemma ServerPlace(p: Place, rest: seq<byte>)
    ensures ReadPlace(S.U32, Some(PlaceBytes(p) + rest)) == Next(p, Some(rest))
  {
    NumbersRecovered();
    PlaceRead(S.U32, p, rest);
  }

  lemma ClientPlace(p: Place, rest: seq<byte>)
    ensures ReadPlace(C.Float, Some(PlaceBytes(p) + rest)) == Next(p, Some(rest))
  {
    NumbersRecovered();
    PlaceRead(C.Float, p, rest);
  }

  lemma ServerNode(n: Node, rest: seq<byte>)
    ensures S.ReadNode(Some(NodeBytes(n) + rest)) == Next(n, Some(rest))
  {
    Assoc(U32Bytes(n.action), PlaceBytes(n.place), rest);
    U32Read(n.action, PlaceBytes(n.place) + rest);
    ServerPlace(n.place, rest);
  }

  lemma ClientNode(n: Node, rest: seq<byte>)
    ensures C.ReadNode(Some(NodeBytes(n) + rest)) == Next(n, Some(rest))
  {
    Assoc(U32Bytes(n.action), PlaceBytes(n.place), rest);
    U32Read(n.action, PlaceBytes(n.place) + rest);
    ClientPlace(n.place, rest);
  }

  // ---------------------------------------------------------------- from the client to the server

  lemma {:induction false} Split5(a: seq<byte>, b: seq<byte>, c: seq<byte>, d: seq<byte>, e: seq<byte>, rest: seq<byte>)
    ensures a + b + c + d + e + rest == a + (b + (c + (d + (e + rest))))
  {
  }

  /** The server reads the login that the client wrote, with its strings in ASCII. */
  lemma LoginToServer(l: Login)
    requires Short(l.username) && Short(l.password)
    ensures S.ReadLogin(Some(LoginBytes(C.AsciiLogin(l)))) == Next(C.AsciiLogin(l), Some([]))
    ensures C.AsciiLogin(l) == l <==> IsAscii(l.username) && IsAscii(l.password)
  {
    var m := C.AsciiLogin(l);
    C.AsciiIff(l.username);
    C.AsciiIff(l.password);
    AsciiFits(l.username);
    AsciiFits(l.password);
    var e := StringBytes(m.password) + [];
    var d := StringBytes(m.username) + e;
    var c := U32Bytes(m.usertype) + d;
    Split5(U32Bytes(m.state), U32Bytes(m.userid), U32Bytes(m.usertype), StringBytes(m.username),
           StringBytes(m.password), []);
    assert LoginBytes(m) + [] == LoginBytes(m);
    U32Read(m.state, U32Bytes(m.userid) + c);
    U32Read(m.userid, c);
    U32Read(m.usertype, d);
    ServerString(m.username, e);
    ServerString(m.password, []);
  }

  /** The server reads the path that the client wrote. */
  lemma PathToServer(path: seq<Node>)
    requires Short(path)
    ensures S.ReadPath(Some(Many(NodeBytes, path))) == Next(path, Some([]))
  {
    forall i | 0 <= i < |path| ensures Recovers(S.ReadNode, NodeBytes(path[i]), path[i]) {
      forall rest ensures S.ReadNode(Some(NodeBytes(path[i]) + rest)) == Next(path[i], Some(rest)) {
        ServerNode(path[i], rest);
      }
    }
    NumbersRecovered();
    CountedRecovered(S.U32, S.ReadNode, NodeBytes, path, path, []);
    assert Many(NodeBytes, path) + [] == Many(NodeBytes, path);
  }

  lemma IdsRead(count: Reader<u32>, ids: seq<u32>, rest: seq<byte>)
    requires Short(ids) && RecoversNumbers(count)
    ensures ReadCounted(count, count, Some(Many(U32Bytes, ids) + rest)) == Next(ids, Some(rest))
  {
    CountedRecovered(count, count, U32Bytes, ids, ids, rest);
  }

  /** The server reads the objects packet that the client wrote. */
  lemma ObjectsToServer(o: Objects)
    requires Short(o.ids)
    ensures S.ReadObjects(Some(ObjectsBytes(o))) == Next(o, Some([]))
  {
    var ids := Many(U32Bytes, o.ids);
    Assoc(U32Bytes(o.state), U32Bytes(o.clip), ids);
    U32Read(o.state, U32Bytes(o.clip) + ids);
    U32Read(o.clip, ids);
    NumbersRecovered();
    IdsRead(S.U32, o.ids, []);
    assert ids + [] == ids;
  }

  // ---------------------------------------------------------------- from the server to the client

  /** The client reads the login that the server wrote, with its strings in ASCII. */
  lemma LoginToClient(l: Login)
    requires Fits(l.username) && Fits(l.password)
    ensures C.ReadLogin(Some(LoginBytes(l))) == Next(C.AsciiLogin(l), Some([]))
    ensures C.AsciiLogin(l) == l <==> IsAscii(l.username) && IsAscii(l.password)
  {
    C.AsciiIff(l.username);
    C.AsciiIff(l.password);
    var e := StringBytes(l.password) + [];
    var d := StringBytes(l.username) + e;
    var c := U32Bytes(l.usertype) + d;
    Split5(U32Bytes(l.state), U32Bytes(l.userid), U32Bytes(l.usertype), StringBytes(l.username),
           StringBytes(l.password), []);
    assert LoginBytes(l) + [] == LoginBytes(l);
    U32Read(l.state, U32Bytes(l.userid) + c);
    U32Read(l.userid, c);
    U32Read(l.usertype, d);
    ClientString(l.username, e);
    ClientString(l.password, []);
  }

  lemma {:induction false} Split4(a: seq<byte>, b: seq<byte>, c: seq<byte>, d: seq<byte>, rest: seq<byte>)
    ensures a + b + c + d + rest == a + (b + (c + (d + rest)))
  {
  }

  lemma CreateRead(c: CreateStruct, rest: seq<byte>)
    requires Fits(c.displayName)
    ensures C.ReadCreate(Some(CreateBytes(c) + rest)) == Next(C.AsciiCreate(c), Some(rest))
  {
    var d := PlaceBytes(c.place) + rest;
    var s := StringBytes(c.displayName) + d;
    Split4(U32Bytes(c.sessionid), U32Bytes(c.mode), StringBytes(c.displayName), PlaceBytes(c.place), rest);
    U32Read(c.sessionid, U32Bytes(c.mode) + s);
    U32Read(c.mode, s);
    ClientString(c.displayName, d);
    ClientPlace(c.place, rest);
  }

  function AsciiCreates(creates: seq<CreateStruct>): (r: seq<CreateStruct>)
    ensures |r| == |creates| && forall i | 0 <= i < |r| :: r[i] == C.AsciiCreate(creates[i])
  {
    seq(|creates|, i requires 0 <= i < |creates| => C.AsciiCreate(creates[i]))
  }

  /** The client reads the create list that the server wrote. */
  lemma CreatesToClient(creates: seq<CreateStruct>, rest: seq<byte>)
    requires Short(creates) && forall i | 0 <= i < |creates| :: Fits(creates[i].displayName)
    ensures C.ReadList(C.ReadCreate, Some(Many(CreateBytes, creates) + rest)) == Next(AsciiCreates(creates), Some(rest))
  {
    var read := AsciiCreates(creates);
    forall i | 0 <= i < |creates| ensures Recovers(C.ReadCreate, CreateBytes(creates[i]), read[i]) {
      forall tail ensures C.ReadCreate(Some(CreateBytes(creates[i]) + tail)) == Next(read[i], Some(tail)) {
        CreateRead(creates[i], tail);
      }
    }
    NumbersRecovered();
    CountedRecovered(C.U32, C.ReadCreate, CreateBytes, creates, read, rest);
  }

  /** The client reads the destroy list that the server wrote. */
  lemma DestroysToClient(ids: seq<u32>, rest: seq<byte>)
    requires Short(ids)
    ensures C.ReadList(C.U32, Some(Many(U32Bytes, ids) + rest)) == Next(ids, Some(rest))
  {
    NumbersRecovered();
    IdsRead(C.U32, ids, rest);
  }

  lemma PathToClient(path: seq<Node>, rest: seq<byte>)
    requires Short(path)
    ensures C.ReadList(C.ReadNode, Some(Many(NodeBytes, path) + rest)) == Next(path, Some(rest))
  {
    forall i | 0 <= i < |path| ensures Recovers(C.ReadNode, NodeBytes(path[i]), path[i]) {
      forall rest ensures C.ReadNode(Some(NodeBytes(path[i]) + rest)) == Next(path[i], Some(rest)) {
        ClientNode(path[i], rest);
      }
    }
    NumbersRecovered();
    CountedRecovered(C.U32, C.ReadNode, NodeBytes, path, path, rest);
  }

  lemma TransformRead(t: TransformEntity, rest: seq<byte>)
    requires Short(t.path)
    ensures C.ReadTransform(Some(TransformBytes(t) + rest)) == Next(t, Some(rest))
  {
    Assoc(U32Bytes(t.sessionid), Many(NodeBytes, t.path), rest);
    U32Read(t.sessionid, Many(NodeBytes, t.path) + rest);
    PathToClient(t.path, rest);
  }

  /** The client reads the transform list that the server wrote. */
  lemma TransformsToClient(queue: seq<TransformEntity>)
    requires Short(queue) && forall i | 0 <= i < |queue| :: Short(queue[i].path)
    ensures C.ReadList(C.ReadTransform, Some(Many(TransformBytes, queue))) == Next(queue, Some([]))
  {
    forall i | 0 <= i < |queue| ensures Recovers(C.ReadTransform, TransformBytes(queue[i]), queue[i]) {
      forall rest ensures C.ReadTransform(Some(TransformBytes(queue[i]) + rest)) == Next(queue[i], Some(rest)) {
        TransformRead(queue[i], rest);
      }
    }
    NumbersRecovered();
    CountedRecovered(C.U32, C.ReadTransform, TransformBytes, queue, queue, []);
    assert Many(TransformBytes, queue) + [] == Many(TransformBytes, queue);
  }

  /** The client reads the objects update that the server wrote: the state, both lists, and every byte. */
  lemma UpdateToClient(u: Update)
    requires Short(u.creates) && Short(u.destroys) && forall i | 0 <= i < |u.creates| :: Fits(u.creates[i].displayName)
    ensures C.ReadUpdate(Some(UpdateBytes(u))) == Next(u.(creates := AsciiCreates(u.creates)), Some([]))
  {
    var destroys := Many(U32Bytes, u.destroys);
    Assoc(U32Bytes(u.state), Many(CreateBytes, u.creates), destroys);
    U32Read(u.state, Many(CreateBytes, u.creates) + destroys);
    CreatesToClient(u.creates, destroys);
    DestroysToClient(u.destroys, []);
    assert destroys + [] == destroys;
  }
}
