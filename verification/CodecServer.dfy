/** The server's buffer: a vector of bytes with an iterator to read at, big-endian. */
module CodecServer {
  import opened TextStream
  import opened Wire

  // ---------------------------------------------------------------- what the readers take

  /** `readUInt32`. It notices only that exactly three bytes are left; with fewer it reads past the end,
      which is undefined. */
  function U32(c: Cursor): Next<u32> {
    if c == None || |c.value| < 3 then Next(0, None)
    else if |c.value| == 3 then Next(0, c)
    else Next(U32Of(c.value[0], c.value[1], c.value[2], c.value[3]), Some(c.value[4..]))
  }

  function Text(s: seq<byte>): (r: string)
    ensures |r| == |s| && forall i | 0 <= i < |s| :: r[i] == s[i] as char
  {
    seq(|s|, i requires 0 <= i < |s| => s[i] as char)
  }

  /** `readString`. It notices only that one byte is missing. */
  function Str(c: Cursor): Next<string> {
    var n := U32(c);
    if n.rest == None then Next("", None)
    else if n.value == 0 || |n.rest.value| == n.value - 1 then Next("", n.rest)
    else if |n.rest.value| < n.value then Next("", None)
    else Next(Text(n.rest.value[..n.value]), Some(n.rest.value[n.value..]))
  }

  function ReadLogin(c: Cursor): Next<Login> {
    var state := U32(c);
    var userid := U32(state.rest);
    var usertype := U32(userid.rest);
    var username := Str(usertype.rest);
    var password := Str(username.rest);
    Next(Login(state.value, userid.value, usertype.value, username.value, password.value), password.rest)
  }

  function ReadNode(c: Cursor): Next<Node> {
    var action := U32(c);
    var place := ReadPlace(U32, action.rest);
    Next(Node(action.value, place.value), place.rest)
  }

  function ReadPath(c: Cursor): Next<seq<Node>> {
    ReadCounted(U32, ReadNode, c)
  }

  function ReadIds(c: Cursor): Next<seq<u32>> {
    ReadCounted(U32, U32, c)
  }

  function ReadObjects(c: Cursor): Next<Objects> {
    var state := U32(c);
    var clip := U32(state.rest);
    var ids := ReadIds(clip.rest);
    Next(Objects(state.value, clip.value, ids.value), ids.rest)
  }

  // ---------------------------------------------------------------- the buffer

  class Buffer {
    var data: seq<byte>
    var it: nat

    ghost predicate Valid()
      reads this
    {
      it <= |data|
    }

    function Rest(): seq<byte>
      requires Valid()
      reads this
    {
      data[it..]
    }

    constructor (data: seq<byte>)
      ensures Valid() && this.data == data && it == 0 && Rest() == data
    {
      this.data, it := data, 0;
    }

    /** What a read promises: nothing where it is undefined. */
    ghost predicate Read<T>(value: T, next: Next<T>)
      reads this
    {
      Valid() && (next.rest.Some? ==> value == next.value && Rest() == next.rest.value)
    }

    method WriteUInt32(value: u32)
      requires Valid()
      modifies this`data
      ensures Valid() && data == old(data) + U32Bytes(value)
    {
      data := data + [value / 0x100_0000 % 0x100];
      data := data + [value / 0x1_0000 % 0x100];
      data := data + [value / 0x100 % 0x100];
      data := data + [value % 0x100];
    }

    method WriteString(value: string)
      requires Valid()
      modifies this`data
      ensures Valid() && data == old(data) + StringBytes(value)
    {
      WriteUInt32(Count(|value|));
      data := data + Chars(value);
    }

    method ReadUInt32() returns (value: u32)
      requires Valid()
      modifies this`it
      ensures Read(value, U32(Some(old(Rest()))))
    {
      if it + 3 >= |data| {
        return 0;
      }
      value := U32Of(data[it], data[it + 1], data[it + 2], data[it + 3]);
      it := it + 4;
    }

    method ReadString() returns (value: string)
      requires Valid()
      modifies this`it
      ensures Read(value, Str(Some(old(Rest()))))
    {
      value := "";
      var length := ReadUInt32();
      if length > 0 && it + length <= |data| {
        ghost var rest := Rest();
        for i := 0 to length
          invariant value == Text(rest[..length])[..i] && Valid() && Rest() == rest && it + length <= |data|
        {
          value := value + [data[it + i] as char];
        }
        assert Text(rest[..length])[..length] == Text(rest[..length]);
        it := it + length;
        assert Rest() == rest[length..];
      }
    }

    // ------------------------------------------------------------ the structs

    method ReadLoginStruct() returns (l: Login)
      requires Valid()
      modifies this`it
      ensures Read(l, ReadLogin(Some(old(Rest()))))
    {
      var state := ReadUInt32();
      var userid := ReadUInt32();
      var usertype := ReadUInt32();
      var username := ReadString();
      var password := ReadString();
      l := Login(state, userid, usertype, username, password);
    }

    method ReadTransform() returns (p: Place)
      requires Valid()
      modifies this`it
      ensures Read(p, ReadPlace(U32, Some(old(Rest()))))
    {
      var px := ReadUInt32();
      var py := ReadUInt32();
      var pz := ReadUInt32();
      var ox := ReadUInt32();
      var oy := ReadUInt32();
      var oz := ReadUInt32();
      var ow := ReadUInt32();
      p := Place(px, py, pz, ox, oy, oz, ow);
    }

    method ReadTransformStruct() returns (n: Node)
      requires Valid()
      modifies this`it
      ensures Read(n, ReadNode(Some(old(Rest()))))
    {
      var action := ReadUInt32();
      var place := ReadTransform();
      n := Node(action, place);
    }

    method ReadTransforms() returns (path: seq<Node>)
      requires Valid()
      modifies this`it
      ensures Read(path, ReadPath(Some(old(Rest()))))
    {
      var size := ReadUInt32();
      ghost var start: Cursor := U32(Some(old(Rest()))).rest;
      path := [];
      for i := 0 to size
        invariant Valid() && (start.Some? ==> Read(path, ReadMany(i, ReadNode, start)))
      {
        var n := ReadTransformStruct();
        path := path + [n];
      }
    }

    method ReadIdList() returns (ids: seq<u32>)
      requires Valid()
      modifies this`it
      ensures Read(ids, ReadIds(Some(old(Rest()))))
    {
      var size := ReadUInt32();
      ghost var start: Cursor := U32(Some(old(Rest()))).rest;
      ids := [];
      for i := 0 to size
        invariant Valid() && (start.Some? ==> Read(ids, ReadMany(i, U32, start)))
      {
        var n := ReadUInt32();
        ids := ids + [n];
      }
    }

    method ReadObjectsStruct() returns (o: Objects)
      requires Valid()
      modifies this`it
      ensures Read(o, ReadObjects(Some(old(Rest()))))
    {
      var state := ReadUInt32();
      var clip := ReadUInt32();
      var ids := ReadIdList();
      o := Objects(state, clip, ids);
    }

    method WriteLoginStruct(l: Login)
      requires Valid()
      modifies this`data
      ensures Valid() && data == old(data) + LoginBytes(l)
    {
      WriteUInt32(l.state);
      WriteUInt32(l.userid);
      WriteUInt32(l.usertype);
      WriteString(l.username);
      WriteString(l.password);
    }

    method WriteTransform(p: Place)
      requires Valid()
      modifies this`data
      ensures Valid() && data == old(data) + PlaceBytes(p)
    {
      WriteUInt32(p.px);
      WriteUInt32(p.py);
      WriteUInt32(p.pz);
      WriteUInt32(p.ox);
      WriteUInt32(p.oy);
      WriteUInt32(p.oz);
      WriteUInt32(p.ow);
    }

    method WriteDestroyEntities(ids: seq<u32>)
      requires Valid()
      modifies this`data
      ensures Valid() && data == old(data) + Many(U32Bytes, ids)
    {
      ghost var before := data;
      WriteUInt32(Count(|ids|));
      ghost var start := data;
      ManyWritten(before, U32Bytes, ids);
      ManyWritten(start, U32Bytes, ids);
      for i := 0 to |ids|
        invariant Valid() && data == start + Each(U32Bytes, ids[..i])
      {
        EachNext(start, U32Bytes, ids, i);
        WriteUInt32(ids[i]);
      }
    }

    method WriteCreateEntity(c: CreateStruct)
      requires Valid()
      modifies this`data
      ensures Valid() && data == old(data) + CreateBytes(c)
    {
      WriteUInt32(c.sessionid);
      WriteUInt32(c.mode);
      WriteString(c.displayName);
      WriteTransform(c.place);
    }

    method WriteCreateEntities(creates: seq<CreateStruct>)
      requires Valid()
      modifies this`data
      ensures Valid() && data == old(data) + Many(CreateBytes, creates)
    {
      ghost var before := data;
      WriteUInt32(Count(|creates|));
      ghost var start := data;
      ManyWritten(before, CreateBytes, creates);
      ManyWritten(start, CreateBytes, creates);
      for i := 0 to |creates|
        invariant Valid() && data == start + Each(CreateBytes, creates[..i])
      {
        EachNext(start, CreateBytes, creates, i);
        WriteCreateEntity(creates[i]);
      }
    }

    method WriteTransformStruct(n: Node)
      requires Valid()
      modifies this`data
      ensures Valid() && data == old(data) + NodeBytes(n)
    {
      WriteUInt32(n.action);
      WriteTransform(n.place);
    }

    method WriteTransforms(path: seq<Node>)
      requires Valid()
      modifies this`data
      ensures Valid() && data == old(data) + Many(NodeBytes, path)
    {
      ghost var before := data;
      WriteUInt32(Count(|path|));
      ghost var start := data;
      ManyWritten(before, NodeBytes, path);
      ManyWritten(start, NodeBytes, path);
      for i := 0 to |path|
        invariant Valid() && data == start + Each(NodeBytes, path[..i])
      {
        EachNext(start, NodeBytes, path, i);
        WriteTransformStruct(path[i]);
      }
    }

    method WriteTransformEntity(t: TransformEntity)
      requires Valid()
      modifies this`data
      ensures Valid() && data == old(data) + TransformBytes(t)
    {
      ghost var before := data;
      WriteUInt32(t.sessionid);
      WriteTransforms(t.path);
      Assoc(before, U32Bytes(t.sessionid), Many(NodeBytes, t.path));
    }

    method WriteTransformEntities(queue: seq<TransformEntity>)
      requires Valid()
      modifies this`data
      ensures Valid() && data == old(data) + Many(TransformBytes, queue)
    {
      ghost var before := data;
      WriteUInt32(Count(|queue|));
      ghost var start := data;
      ManyWritten(before, TransformBytes, queue);
      ManyWritten(start, TransformBytes, queue);
      for i := 0 to |queue|
        invariant Valid() && data == start + Each(TransformBytes, queue[..i])
      {
        EachNext(start, TransformBytes, queue, i);
        WriteTransformEntity(queue[i]);
      }
    }

    method WriteObjectsUpdate(u: Update)
      requires Valid()
      modifies this`data
      ensures Valid() && data == old(data) + UpdateBytes(u)
    {
      ghost var before := data;
      WriteUInt32(u.state);
      WriteCreateEntities(u.creates);
      WriteDestroyEntities(u.destroys);
      AddThree(before, U32Bytes(u.state), Many(CreateBytes, u.creates), Many(U32Bytes, u.destroys));
    }
  }
}
