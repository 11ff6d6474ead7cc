/** The client's buffer: an array of bytes, written at its end and read from a position. Its strings
    are ASCII: any other character becomes a question mark, in both directions. */
module CodecClient {
  import opened TextStream
  import opened Wire

  function AsciiChar(c: char): char {
    if c < 128 as char then c else '?'
  }

  function Ascii(s: string): (r: string)
    ensures |r| == |s| && forall i | 0 <= i < |s| :: r[i] == AsciiChar(s[i])
  {
    seq(|s|, i requires 0 <= i < |s| => AsciiChar(s[i]))
  }

  lemma AsciiIff(s: string)
    ensures Ascii(s) == s <==> IsAscii(s)
    ensures IsAscii(Ascii(s)) && Ascii(Ascii(s)) == Ascii(s)
  {
    if Ascii(s) == s {
      forall i | 0 <= i < |s| ensures s[i] < 128 as char {
        assert Ascii(s)[i] == AsciiChar(s[i]);
      }
    }
  }

  function AsciiLogin(l: Login): Login {
    l.(username := Ascii(l.username), password := Ascii(l.password))
  }

  function AsciiCreate(c: CreateStruct): CreateStruct {
    c.(displayName := Ascii(c.displayName))
  }

  /** `BitConverter.GetBytes` of a float, in the order of the machine. */
  function FloatBytes(bits: u32, littleEndian: bool): (r: seq<byte>)
    ensures |r| == 4
  {
    var s := U32Bytes(bits);
    if littleEndian then [s[3], s[2], s[1], s[0]] else s
  }

  /** The bytes in the order in which they are written. */
  lemma FloatInOrder(bits: u32, littleEndian: bool)
    ensures var s := FloatBytes(bits, littleEndian);
            (if littleEndian then [s[3], s[2], s[1], s[0]] else [s[0], s[1], s[2], s[3]]) == U32Bytes(bits)
  {
    var s := U32Bytes(bits);
    assert s == [s[0], s[1], s[2], s[3]];
  }

  /** `BitConverter.ToSingle` */
  function FloatOf(s: seq<byte>, littleEndian: bool): u32
    requires |s| == 4
  {
    if littleEndian then U32Of(s[3], s[2], s[1], s[0]) else U32Of(s[0], s[1], s[2], s[3])
  }

  // ---------------------------------------------------------------- what the readers take

  /** `ReadUInt32`: with fewer than four bytes left, zero and no bytes. */
  function U32(c: Cursor): Next<u32> {
    if c == None then Next(0, None)
    else if |c.value| < 4 then Next(0, c)
    else Next(U32Of(c.value[0], c.value[1], c.value[2], c.value[3]), Some(c.value[4..]))
  }

  function U8(c: Cursor): Next<byte> {
    if c == None then Next(0, None)
    else if c.value == [] then Next(0, c)
    else Next(c.value[0], Some(c.value[1..]))
  }

  function ByteAt(s: seq<byte>, i: nat): byte {
    if i < |s| then s[i] else 0
  }

  /** `ReadFloat`: on either kind of machine the bytes are read as big-endian; a missing byte is zero. */
  function Float(c: Cursor): Next<u32> {
    if c == None then Next(0, None)
    else
      var s := c.value;
      Next(U32Of(ByteAt(s, 0), ByteAt(s, 1), ByteAt(s, 2), ByteAt(s, 3)), Some(if |s| < 4 then [] else s[4..]))
  }

  function Text(s: seq<byte>): (r: string)
    ensures |r| == |s| && forall i | 0 <= i < |s| :: r[i] == AsciiChar(s[i] as char)
  {
    seq(|s|, i requires 0 <= i < |s| => AsciiChar(s[i] as char))
  }

  /** `ReadString` throws if bytes are missing. */
  function Str(c: Cursor): Next<string> {
    var n := U32(c);
    if n.rest == None || |n.rest.value| < n.value then Next("", None)
    else Next(Text(n.rest.value[..n.value]), Some(n.rest.value[n.value..]))
  }

  function ReadLogin(c: Cursor): Next<Login> {
    var state := U32(c);
    var userid := U32(state.rest);
    var usertype := U32(userid.rest);
    var username := Str(usertype.rest);
    var password := Str(username.rest);
    Next(Login(state.value, userid.value, usertype.value, username.value, password.value), password.rest)
  }

  function ReadCreate(c: Cursor): Next<CreateStruct> {
    var sessionid := U32(c);
    var mode := U32(sessionid.rest);
    var displayName := Str(mode.rest);
    var place := ReadPlace(Float, displayName.rest);
    Next(CreateStruct(sessionid.value, mode.value, displayName.value, place.value), place.rest)
  }

  function ReadNode(c: Cursor): Next<Node> {
    var action := U32(c);
    var place := ReadPlace(Float, action.rest);
    Next(Node(action.value, place.value), place.rest)
  }

  function ReadList<T(!new)>(read: Reader<T>, c: Cursor): Next<seq<T>> {
    ReadCounted(U32, read, c)
  }

  function ReadTransform(c: Cursor): Next<TransformEntity> {
    var sessionid := U32(c);
    var path := ReadList(ReadNode, sessionid.rest);
    Next(TransformEntity(sessionid.value, path.value), path.rest)
  }

  function ReadUpdate(c: Cursor): Next<Update> {
    var state := U32(c);
    var creates := ReadList(ReadCreate, state.rest);
    var destroys := ReadList(U32, creates.rest);
    Next(Update(state.value, creates.value, destroys.value), destroys.rest)
  }

  // ---------------------------------------------------------------- the buffer

  class Buffer {
    const littleEndian: bool
    var data: seq<byte>
    var rpos: nat

    ghost predicate Valid()
      reads this
    {
      rpos <= |data|
    }

    function Rest(): seq<byte>
      requires Valid()
      reads this
    {
      data[rpos..]
    }

    constructor (data: seq<byte>, littleEndian: bool)
      ensures Valid() && this.data == data && rpos == 0 && Rest() == data && this.littleEndian == littleEndian
    {
      this.data, rpos, this.littleEndian := data, 0, littleEndian;
    }

    /** What a read promises: nothing where it throws. */
    ghost predicate Read<T>(value: T, next: Next<T>)
      reads this
    {
      Valid() && (next.rest.Some? ==> value == next.value && Rest() == next.rest.value)
    }

    method WriteUInt8(i: u32)
      requires Valid()
      modifies this`data
      ensures Valid() && data == old(data) + [i % 0x100]
    {
      data := data + [i % 0x100];
    }

    method WriteUInt32(i: u32)
      requires Valid()
      modifies this`data
      ensures Valid() && data == old(data) + U32Bytes(i)
    {
      WriteUInt8(i / 0x100_0000);
      WriteUInt8(i / 0x1_0000);
      WriteUInt8(i / 0x100);
      WriteUInt8(i);
    }

    method WriteString(s: string)
      requires Valid()
      modifies this`data
      ensures Valid() && data == old(data) + StringBytes(Ascii(s))
    {
      ghost var before := data;
      WriteUInt32(Count(|s|));
      ghost var start, all := data, Chars(Ascii(s));
      for i := 0 to |s|
        invariant Valid() && data == start + all[..i]
      {
        data := data + [AsciiChar(s[i]) as int % 0x100];
      }
      assert all[..|s|] == all;
      Assoc(before, U32Bytes(Count(|s|)), all);
    }

    /** Four bytes, one after the other. */
    method WriteBytes(a: byte, b: byte, c: byte, d: byte)
      requires Valid()
      modifies this`data
      ensures Valid() && data == old(data) + [a, b, c, d]
    {
      WriteUInt8(a);
      WriteUInt8(b);
      WriteUInt8(c);
      WriteUInt8(d);
    }

    method WriteFloat(f: u32)
      requires Valid()
      modifies this`data
      ensures Valid() && data == old(data) + U32Bytes(f)
    {
      FloatInOrder(f, littleEndian);
      var floatBytes := FloatBytes(f, littleEndian);
      if littleEndian {
        WriteBytes(floatBytes[3], floatBytes[2], floatBytes[1], floatBytes[0]);
      } else {
        WriteBytes(floatBytes[0], floatBytes[1], floatBytes[2], floatBytes[3]);
      }
    }

    method ReadUInt32() returns (value: u32)
      requires Valid()
      modifies this`rpos
      ensures Read(value, U32(Some(old(Rest()))))
    {
      if rpos + 3 < |data| {
        value := U32Of(data[rpos], data[rpos + 1], data[rpos + 2], data[rpos + 3]);
        rpos := rpos + 4;
      } else {
        value := 0;
      }
    }

    method ReadUInt8() returns (value: byte)
      requires Valid()
      modifies this`rpos
      ensures Read(value, U8(Some(old(Rest()))))
    {
      value := 0;
      if rpos < |data| {
        value := data[rpos];
        rpos := rpos + 1;
      }
    }

    method ReadString() returns (value: string)
      requires Valid()
      modifies this`rpos
      ensures Read(value, Str(Some(old(Rest()))))
    {
      value := "";
      var l := ReadUInt32();
      if rpos + l <= |data| {
        ghost var rest, text := Rest(), Text(Rest()[..l]);
        for i := 0 to l
          invariant Valid() && rpos + (l - i) <= |data| && Rest() == rest[i..] && value == text[..i]
        {
          value := value + [AsciiChar(data[rpos] as char)];
          assert data[rpos] == rest[i];
          rpos := rpos + 1;
        }
        assert text[..l] == text;
      }
    }

    method ReadFloat() returns (value: u32)
      requires Valid()
      modifies this`rpos
      ensures Read(value, Float(Some(old(Rest()))))
    {
      var a := ReadUInt8();
      var b := ReadUInt8();
      var c := ReadUInt8();
      var d := ReadUInt8();
      value := FloatOf(if littleEndian then [d, c, b, a] else [a, b, c, d], littleEndian);
    }

    // ------------------------------------------------------------ the structs

    method LoginReply() returns (l: Login)
      requires Valid()
      modifies this`rpos
      ensures Read(l, ReadLogin(Some(old(Rest()))))
    {
      var state := ReadUInt32();
      var userid := ReadUInt32();
      var usertype := ReadUInt32();
      var username := ReadString();
      var password := ReadString();
      l := Login(state, userid, usertype, username, password);
    }

    method ReadPosition() returns (p: Place)
      requires Valid()
      modifies this`rpos
      ensures Read(p, ReadPlace(Float, Some(old(Rest()))))
    {
      var px := ReadFloat();
      var py := ReadFloat();
      var pz := ReadFloat();
      var ox := ReadFloat();
      var oy := ReadFloat();
      var oz := ReadFloat();
      var ow := ReadFloat();
      p := Place(px, py, pz, ox, oy, oz, ow);
    }

    method ReadCreateStruct() returns (c: CreateStruct)
      requires Valid()
      modifies this`rpos
      ensures Read(c, ReadCreate(Some(old(Rest()))))
    {
      var sessionid := ReadUInt32();
      var mode := ReadUInt32();
      var displayName := ReadString();
      var place := ReadPosition();
      c := CreateStruct(sessionid, mode, displayName, place);
    }

    method ReadTransformStruct() returns (n: Node)
      requires Valid()
      modifies this`rpos
      ensures Read(n, ReadNode(Some(old(Rest()))))
    {
      var action := ReadUInt32();
      var place := ReadPosition();
      n := Node(action, place);
    }

    /** `Receive.CreateEntity`, with what it queues as its result. */
    method CreateEntity() returns (creates: seq<CreateStruct>)
      requires Valid()
      modifies this`rpos
      ensures Read(creates, ReadList(ReadCreate, Some(old(Rest()))))
    {
      var length := ReadUInt32();
      ghost var start := U32(Some(old(Rest()))).rest;
      creates := [];
      for i := 0 to length
        invariant Valid() && (start.Some? ==> Read(creates, ReadMany(i, ReadCreate, start)))
      {
        var x := ReadCreateStruct();
        creates := creates + [x];
      }
    }

    /** `Receive.DestroyEntity` */
    method DestroyEntity() returns (destroys: seq<u32>)
      requires Valid()
      modifies this`rpos
      ensures Read(destroys, ReadList(U32, Some(old(Rest()))))
    {
      var length := ReadUInt32();
      ghost var start := U32(Some(old(Rest()))).rest;
      destroys := [];
      for i := 0 to length
        invariant Valid() && (start.Some? ==> Read(destroys, ReadMany(i, U32, start)))
      {
        var x := ReadUInt32();
        destroys := destroys + [x];
      }
    }

    /** The inner loop of `Receive.TransformEntity`. */
    method ReadPath() returns (path: seq<Node>)
      requires Valid()
      modifies this`rpos
      ensures Read(path, ReadList(ReadNode, Some(old(Rest()))))
    {
      var length := ReadUInt32();
      ghost var start := U32(Some(old(Rest()))).rest;
      path := [];
      for i := 0 to length
        invariant Valid() && (start.Some? ==> Read(path, ReadMany(i, ReadNode, start)))
      {
        var x := ReadTransformStruct();
        path := path + [x];
      }
    }

    method ReadTransformEntity() returns (t: TransformEntity)
      requires Valid()
      modifies this`rpos
      ensures Read(t, ReadTransform(Some(old(Rest()))))
    {
      var sessionid := ReadUInt32();
      var path := ReadPath();
      t := TransformEntity(sessionid, path);
    }

    /** `Receive.TransformEntity` */
    method TransformEntities() returns (transforms: seq<TransformEntity>)
      requires Valid()
      modifies this`rpos
      ensures Read(transforms, ReadList(ReadTransform, Some(old(Rest()))))
    {
      var length := ReadUInt32();
      ghost var start := U32(Some(old(Rest()))).rest;
      transforms := [];
      for i := 0 to length
        invariant Valid() && (start.Some? ==> Read(transforms, ReadMany(i, ReadTransform, start)))
      {
        var x := ReadTransformEntity();
        transforms := transforms + [x];
      }
    }

    method ObjectsReply() returns (u: Update)
      requires Valid()
      modifies this`rpos
      ensures Read(u, ReadUpdate(Some(old(Rest()))))
    {
      var state := ReadUInt32();
      var creates := CreateEntity();
      var destroys := DestroyEntity();
      u := Update(state, creates, destroys);
    }

    /** `Send.LoginData` */
    method LoginData(l: Login)
      requires Valid()
      modifies this`data
      ensures Valid() && data == old(data) + LoginBytes(AsciiLogin(l))
    {
      ghost var before, m := data, AsciiLogin(l);
      WriteUInt32(l.state);
      WriteUInt32(l.userid);
      WriteUInt32(l.usertype);
      WriteString(l.username);
      WriteString(l.password);
      AddFive(before, U32Bytes(m.state), U32Bytes(m.userid), U32Bytes(m.usertype),
              StringBytes(m.username), StringBytes(m.password));
    }

    method WritePosition(p: Place)
      requires Valid()
      modifies this`data
      ensures Valid() && data == old(data) + PlaceBytes(p)
    {
      WriteFloat(p.px);
      WriteFloat(p.py);
      WriteFloat(p.pz);
      WriteFloat(p.ox);
      WriteFloat(p.oy);
      WriteFloat(p.oz);
      WriteFloat(p.ow);
    }

    method WriteTransformStruct(n: Node)
      requires Valid()
      modifies this`data
      ensures Valid() && data == old(data) + NodeBytes(n)
    {
      WriteUInt32(n.action);
      WritePosition(n.place);
    }

    /** `Send.TransformData` */
    method TransformData(path: seq<Node>)
      requires Valid()
      modifies this`data
      ensures Valid() && data == old(data) + Many(NodeBytes, path)
    {
      ghost var before := data;
      WriteUInt32(Count(|path|));
      ghost var start := data;
      ManyWritten(before, NodeBytes, path);
      ManyWritten(start, NodeBytes, path);
      for i := 0 to |path|
        invariant Valid() && data == start + Each(NodeBytes, path[..i])
      {
        EachNext(start, NodeBytes, path, i);
        WriteTransformStruct(path[i]);
      }
    }

    /** `Send.ObjectsData` */
    method ObjectsData(o: Objects)
      requires Valid()
      modifies this`data
      ensures Valid() && data == old(data) + ObjectsBytes(o)
    {
      ghost var before := data;
      WriteUInt32(o.state);
      WriteFloat(o.clip);
      ghost var mid := data;
      WriteUInt32(Count(|o.ids|));
      ghost var start := data;
      ManyWritten(mid, U32Bytes, o.ids);
      ManyWritten(start, U32Bytes, o.ids);
      for i := 0 to |o.ids|
        invariant Valid() && data == start + Each(U32Bytes, o.ids[..i])
      {
        EachNext(start, U32Bytes, o.ids, i);
        WriteUInt32(o.ids[i]);
      }
      AddThree(before, U32Bytes(o.state), U32Bytes(o.clip), Many(U32Bytes, o.ids));
    }
  }
}
