/** Where each field of a packet stands, byte by byte, and what readers do at the end of a buffer. */
module WireLayout {
  import opened TextStream
  import opened Wire
  import S = CodecServer
  import C = CodecClient
  import F = Framing

  /** The number at a place, most significant byte first. */
  function Big(s: seq<byte>, at: nat): int
    requires at + 4 <= |s|
  {
    ((s[at] as int * 256 + s[at + 1]) * 256 + s[at + 2]) * 256 + s[at + 3]
  }

  lemma BigIsOf(s: seq<byte>, at: nat)
    requires at + 4 <= |s|
    ensures Big(s, at) == U32Of(s[at], s[at + 1], s[at + 2], s[at + 3])
  {
  }

  /** A number takes four bytes. */
  lemma NumberLayout(n: u32)
    ensures |U32Bytes(n)| == 4 && Big(U32Bytes(n), 0) == n
  {
    U32Back(n);
    BigIsOf(U32Bytes(n), 0);
  }

  /** A number among other bytes. */
  lemma NumberAt(before: seq<byte>, n: u32, after: seq<byte>)
    ensures var s := before + U32Bytes(n) + after; |before| + 4 <= |s| && Big(s, |before|) == n
  {
    NumberLayout(n);
  }

  lemma SliceAt<T>(before: seq<T>, s: seq<T>, after: seq<T>)
    ensures (before + s + after)[|before|..|before| + |s|] == s
    ensures forall i | 0 <= i < |s| :: (before + s + after)[|before| + i] == s[i]
  {
  }

  /** The count of a string, and its characters. */
  lemma StringLayout(s: string)
    requires |s| < 0x1_0000_0000
    ensures |StringBytes(s)| == 4 + |s| && Big(StringBytes(s), 0) == |s|
    ensures forall i | 0 <= i < |s| :: StringBytes(s)[4 + i] == s[i] as int % 256
  {
    NumberAt([], Count(|s|), Chars(s));
    assert [] + U32Bytes(Count(|s|)) + Chars(s) == StringBytes(s);
    NumberLayout(Count(|s|));
  }

  /** Five fields of a login; its strings have as many bytes as characters. */
  lemma LoginLayout(l: Login)
    requires |l.username| < 0x1_0000_0000 && |l.password| < 0x1_0000_0000
    ensures var s, u, p := LoginBytes(l), |l.username|, |l.password|;
            && |s| == 20 + u + p
            && Big(s, 0) == l.state && Big(s, 4) == l.userid && Big(s, 8) == l.usertype
            && s[12..16 + u] == StringBytes(l.username) && s[16 + u..] == StringBytes(l.password)
  {
    var a, b, c := U32Bytes(l.state), U32Bytes(l.userid), U32Bytes(l.usertype);
    var d, e := StringBytes(l.username), StringBytes(l.password);
    NumberLayout(l.state);
    NumberLayout(l.userid);
    NumberLayout(l.usertype);
    StringLayout(l.username);
    StringLayout(l.password);
    FiveParts(a, b, c, d, e);
  }

  lemma FiveParts(a: seq<byte>, b: seq<byte>, c: seq<byte>, d: seq<byte>, e: seq<byte>)
    requires |a| == |b| == |c| == 4
    ensures var s := a + b + c + d + e;
            && Big(s, 0) == Big(a, 0) && Big(s, 4) == Big(b, 0) && Big(s, 8) == Big(c, 0)
            && s[12..12 + |d|] == d && s[12 + |d|..] == e
  {
  }

  /** Position, then orientation. */
  lemma PlaceLayout(p: Place)
    ensures var s := PlaceBytes(p);
            && |s| == 28 && Big(s, 0) == p.px && Big(s, 4) == p.py && Big(s, 8) == p.pz
            && Big(s, 12) == p.ox && Big(s, 16) == p.oy && Big(s, 20) == p.oz && Big(s, 24) == p.ow
  {
    NumberLayout(p.px);
    NumberLayout(p.py);
    NumberLayout(p.pz);
    NumberLayout(p.ox);
    NumberLayout(p.oy);
    NumberLayout(p.oz);
    NumberLayout(p.ow);
    SevenParts(U32Bytes(p.px), U32Bytes(p.py), U32Bytes(p.pz), U32Bytes(p.ox), U32Bytes(p.oy), U32Bytes(p.oz),
               U32Bytes(p.ow));
  }

  lemma SevenParts(a: seq<byte>, b: seq<byte>, c: seq<byte>, d: seq<byte>, e: seq<byte>, f: seq<byte>, g: seq<byte>)
    requires |a| == |b| == |c| == |d| == |e| == |f| == |g| == 4
    ensures var s := a + b + c + d + e + f + g;
            && Big(s, 0) == Big(a, 0) && Big(s, 4) == Big(b, 0) && Big(s, 8) == Big(c, 0) && Big(s, 12) == Big(d, 0)
            && Big(s, 16) == Big(e, 0) && Big(s, 20) == Big(f, 0) && Big(s, 24) == Big(g, 0)
  {
  }

  lemma CreateLayout(c: CreateStruct)
    requires |c.displayName| < 0x1_0000_0000
    ensures var s, n := CreateBytes(c), |c.displayName|;
            && |s| == 40 + n && Big(s, 0) == c.sessionid && Big(s, 4) == c.mode
            && s[8..12 + n] == StringBytes(c.displayName) && s[12 + n..] == PlaceBytes(c.place)
  {
    var a, b, d, e := U32Bytes(c.sessionid), U32Bytes(c.mode), StringBytes(c.displayName), PlaceBytes(c.place);
    NumberLayout(c.sessionid);
    NumberLayout(c.mode);
    StringLayout(c.displayName);
    PlaceLayout(c.place);
    FourParts(a, b, d, e);
  }

  lemma FourParts(a: seq<byte>, b: seq<byte>, d: seq<byte>, e: seq<byte>)
    requires |a| == |b| == 4
    ensures var s := a + b + d + e;
            Big(s, 0) == Big(a, 0) && Big(s, 4) == Big(b, 0) && s[8..8 + |d|] == d && s[8 + |d|..] == e
  {
  }

  lemma NodeLayout(n: Node)
    ensures var s := NodeBytes(n); |s| == 32 && Big(s, 0) == n.action && s[4..] == PlaceBytes(n.place)
  {
    NumberLayout(n.action);
    PlaceLayout(n.place);
  }

  // ---------------------------------------------------------------- lists

  /** The elements of a list one after the other. */
  lemma {:induction false} ListConcat<T(!new)>(bytes: T -> seq<byte>, xs: seq<T>, ys: seq<T>)
    ensures Each(bytes, xs + ys) == Each(bytes, xs) + Each(bytes, ys)
    ensures |ys| == 1 ==> Each(bytes, ys) == bytes(ys[0])
  {
    if |ys| == 1 {
      assert ys[1..] == [];
    }
    if xs == [] {
      assert xs + ys == ys;
    } else {
      ListConcat(bytes, xs[1..], ys);
      assert (xs + ys)[1..] == xs[1..] + ys;
    }
  }

  /** Elements of one size stand at its multiples. */
  lemma {:induction false} ListLayout<T(!new)>(bytes: T -> seq<byte>, xs: seq<T>, size: nat, i: nat)
    requires (forall x | x in xs :: |bytes(x)| == size) && i < |xs|
    ensures |Each(bytes, xs)| == size * |xs|
    ensures size * i + size <= |Each(bytes, xs)| && Each(bytes, xs)[size * i..size * i + size] == bytes(xs[i])
  {
    ListSize(bytes, xs[..i], size);
    ListSize(bytes, xs, size);
    ListConcat(bytes, xs[..i], [xs[i]]);
    ListConcat(bytes, xs[..i] + [xs[i]], xs[i + 1..]);
    assert xs == xs[..i] + [xs[i]] + xs[i + 1..];
    SliceAt(Each(bytes, xs[..i]), bytes(xs[i]), Each(bytes, xs[i + 1..]));
  }

  lemma {:induction false} ListSize<T(!new)>(bytes: T -> seq<byte>, xs: seq<T>, size: nat)
    requires forall x | x in xs :: |bytes(x)| == size
    ensures |Each(bytes, xs)| == size * |xs|
  {
    if xs != [] {
      ListSize(bytes, xs[1..], size);
      assert size * |xs| == size + size * (|xs| - 1);
    }
  }

  /** A count, and the elements. */
  lemma {:induction false} ManyLayout<T(!new)>(bytes: T -> seq<byte>, xs: seq<T>)
    requires |xs| < 0x1_0000_0000
    ensures |Many(bytes, xs)| >= 4 && Big(Many(bytes, xs), 0) == |xs| && Many(bytes, xs)[4..] == Each(bytes, xs)
  {
    NumberLayout(Count(|xs|));
  }

  lemma TransformLayout(t: TransformEntity)
    requires |t.path| < 0x1_0000_0000
    ensures var s := TransformBytes(t);
            |s| >= 8 && Big(s, 0) == t.sessionid && Big(s, 4) == |t.path| && s[8..] == Each(NodeBytes, t.path)
  {
    NumberLayout(t.sessionid);
    ManyLayout(NodeBytes, t.path);
    TwoParts(U32Bytes(t.sessionid), Many(NodeBytes, t.path));
  }

  lemma TwoParts(a: seq<byte>, b: seq<byte>)
    requires |a| == 4 && |b| >= 4
    ensures Big(a + b, 0) == Big(a, 0) && Big(a + b, 4) == Big(b, 0) && (a + b)[8..] == b[4..]
  {
  }

  lemma ObjectsLayout(o: Objects)
    requires |o.ids| < 0x1_0000_0000
    ensures var s := ObjectsBytes(o);
            && |s| == 12 + 4 * |o.ids| && Big(s, 0) == o.state && Big(s, 4) == o.clip && Big(s, 8) == |o.ids|
            && forall i | 0 <= i < |o.ids| :: Big(s[12 + 4 * i..16 + 4 * i], 0) == o.ids[i]
  {
    var s := ObjectsBytes(o);
    NumberLayout(o.state);
    NumberLayout(o.clip);
    ManyLayout(U32Bytes, o.ids);
    ThreeParts(U32Bytes(o.state), U32Bytes(o.clip), Many(U32Bytes, o.ids));
    IdsLayout(o.ids);
    forall i | 0 <= i < |o.ids| ensures Big(s[12 + 4 * i..16 + 4 * i], 0) == o.ids[i] {
      assert s[12..] == Each(U32Bytes, o.ids);
      assert s[12 + 4 * i..16 + 4 * i] == Each(U32Bytes, o.ids)[4 * i..4 * i + 4];
    }
  }

  lemma ThreeParts(a: seq<byte>, b: seq<byte>, c: seq<byte>)
    requires |a| == |b| == 4 && |c| >= 4
    ensures var s := a + b + c;
            && Big(s, 0) == Big(a, 0) && Big(s, 4) == Big(b, 0) && Big(s, 8) == Big(c, 0) && s[12..] == c[4..]
  {
  }

  /** Ids stand at multiples of four. */
  lemma IdsLayout(ids: seq<u32>)
    ensures |Each(U32Bytes, ids)| == 4 * |ids|
    ensures forall i | 0 <= i < |ids| :: Big(Each(U32Bytes, ids)[4 * i..4 * i + 4], 0) == ids[i]
  {
    forall n | n in ids ensures |U32Bytes(n)| == 4 {
      NumberLayout(n);
    }
    ListSize(U32Bytes, ids, 4);
    forall i | 0 <= i < |ids| ensures Big(Each(U32Bytes, ids)[4 * i..4 * i + 4], 0) == ids[i] {
      ListLayout(U32Bytes, ids, 4, i);
      NumberLayout(ids[i]);
    }
  }

  /** The state, the creates, and then the destroys. */
  lemma UpdateLayout(u: Update)
    requires |u.creates| < 0x1_0000_0000 && |u.destroys| < 0x1_0000_0000
    ensures var s, creates, destroys := UpdateBytes(u), Each(CreateBytes, u.creates), Each(U32Bytes, u.destroys);
            && |s| == 12 + |creates| + |destroys|
            && Big(s, 0) == u.state && Big(s, 4) == |u.creates| && s[8..8 + |creates|] == creates
            && Big(s[8 + |creates|..], 0) == |u.destroys| && s[12 + |creates|..] == destroys
  {
    var a, b, c := U32Bytes(u.state), Many(CreateBytes, u.creates), Many(U32Bytes, u.destroys);
    NumberLayout(u.state);
    ManyLayout(CreateBytes, u.creates);
    ManyLayout(U32Bytes, u.destroys);
    TwoLists(a, b, c);
  }

  lemma TwoLists(a: seq<byte>, b: seq<byte>, c: seq<byte>)
    requires |a| == 4 && |b| >= 4 && |c| >= 4
    ensures var s := a + b + c;
            && Big(s, 0) == Big(a, 0) && Big(s, 4) == Big(b, 0) && s[8..4 + |b|] == b[4..]
            && Big(s[4 + |b|..], 0) == Big(c, 0) && s[8 + |b|..] == c[4..]
  {
    assert (a + b + c)[4 + |b|..] == c;
  }

  // ---------------------------------------------------------------- frames

  /** The mark, the operation code, the size of the body, the mark again, and the body. */
  lemma FrameLayout(opcode: u32, body: seq<byte>)
    requires |body| < 0x1_0000_0000
    ensures var s := F.Frame(opcode, body);
            && |s| == 16 + |body| && s[16..] == body
            && Big(s, 0) == 0xFFFF_FFFF && Big(s, 4) == opcode && Big(s, 8) == |body| && Big(s, 12) == 0xFFFF_FFFF
  {
    NumberLayout(F.MARK);
    NumberLayout(opcode);
    NumberLayout(Count(|body|));
    HeadParts(U32Bytes(F.MARK), U32Bytes(opcode), U32Bytes(Count(|body|)), U32Bytes(F.MARK), body);
  }

  lemma HeadParts(a: seq<byte>, b: seq<byte>, c: seq<byte>, d: seq<byte>, body: seq<byte>)
    requires |a| == |b| == |c| == |d| == 4
    ensures var s := a + b + c + d + body;
            && Big(s, 0) == Big(a, 0) && Big(s, 4) == Big(b, 0) && Big(s, 8) == Big(c, 0) && Big(s, 12) == Big(d, 0)
            && s[16..] == body
  {
  }

  /** What the server takes from a stream: a whole head with a positive size, and a body that is filled up
      with zeros. */
  lemma ServerTakes(s: seq<byte>)
    ensures |s| < 16 ==> F.ServerTake(s) == F.Refused
    ensures |s| >= 16 && (Big(s, 8) == 0 || Big(s, 8) >= 0x8000_0000) ==> F.ServerTake(s) == F.Refused
    ensures |s| >= 16 && 0 < Big(s, 8) < 0x8000_0000 ==>
              && F.ServerTake(s).Taken?
              && var t, n := F.ServerTake(s), Big(s, 8);
                 && t.packet.opcode == Big(s, 4) && |t.packet.body| == n
                 && (forall i | 0 <= i < n :: t.packet.body[i] == if 16 + i < |s| then s[16 + i] else 0)
                 && t.rest == if 16 + n <= |s| then s[16 + n..] else []
  {
    if |s| >= 16 {
      HeadTaken(s);
    }
  }

  lemma HeadTaken(s: seq<byte>)
    requires |s| >= 16
    ensures F.ServerHead(F.Take(s, 16)) == F.ClientHead(F.Take(s, 16)) == F.Head(Big(s, 4), Big(s, 8))
  {
    var h := s[..16];
    BigIsOf(s, 4);
    BigIsOf(s, 8);
    assert h[4..][4..] == h[8..];
  }

  /** The client takes a packet even from a head that is cut short. */
  lemma ClientTakesShort(s: seq<byte>)
    requires 0 < |s| < 16
    ensures F.ClientTake(s) == F.Taken(F.Packet(if |s| >= 8 then Big(s, 4) else 0, []), [])
  {
    assert F.Take(s, 16) == s && F.Drop(s, 16) == [];
    if |s| >= 8 {
      BigIsOf(s, 4);
    }
  }

  /** What the client takes: as much of the body as the stream has. */
  lemma ClientTakes(s: seq<byte>)
    ensures s == [] ==> F.ClientTake(s) == F.Refused
    ensures |s| >= 16 ==>
              var n := Big(s, 8);
              F.ClientTake(s) == if 16 + n <= |s| then F.Taken(F.Packet(Big(s, 4), s[16..16 + n]), s[16 + n..])
                                 else F.Taken(F.Packet(Big(s, 4), s[16..]), [])
  {
    if |s| >= 16 {
      HeadTaken(s);
      if 16 + Big(s, 8) <= |s| {
        assert s[16..][..Big(s, 8)] == s[16..16 + Big(s, 8)] && s[16..][Big(s, 8)..] == s[16 + Big(s, 8)..];
      }
    }
  }

  // ---------------------------------------------------------------- the end of a buffer

  /** With too few bytes the client reads zero and takes nothing; of a float the missing bytes are zero; a
      string that is cut short throws. */
  lemma ClientAtEnd(s: seq<byte>)
    ensures |s| >= 4 ==> C.U32(Some(s)) == Next(Big(s, 0), Some(s[4..]))
    ensures |s| < 4 ==> C.U32(Some(s)) == Next(0, Some(s)) && C.Str(Some(s)) == Next("", Some(s))
    ensures |s| >= 4 ==> C.Float(Some(s)) == Next(Big(s, 0), Some(s[4..]))
    ensures |s| < 4 ==> C.Float(Some(s)) == Next(Big(s + [0, 0, 0, 0], 0), Some([]))
    ensures |s| >= 4 && Big(s, 0) > |s| - 4 ==> C.Str(Some(s)).rest == None
    ensures C.U8(Some(s)) == if s == [] then Next(0, Some([])) else Next(s[0], Some(s[1..]))
  {
    if |s| >= 4 {
      BigIsOf(s, 0);
    } else {
      BigIsOf(s + [0, 0, 0, 0], 0);
    }
  }

  /** A character that is not ASCII becomes a question mark, in both directions. */
  lemma OtherIsQuestionMark(s: string, bytes: seq<byte>, i: nat)
    ensures i < |s| ==> C.Ascii(s)[i] == if s[i] < 128 as char then s[i] else '?'
    ensures i < |bytes| ==> C.Text(bytes)[i] == if bytes[i] < 128 then bytes[i] as char else '?'
  {
  }

  /** The server misses four bytes only if three are left, and a string only if one of its bytes is. */
  lemma ServerAtEnd(s: seq<byte>)
    ensures |s| >= 4 ==> S.U32(Some(s)) == Next(Big(s, 0), Some(s[4..]))
    ensures |s| == 3 ==> S.U32(Some(s)) == Next(0, Some(s))
    ensures |s| >= 4 && Big(s, 0) == |s| - 3 ==> S.Str(Some(s)) == Next("", Some(s[4..]))
  {
    if |s| >= 4 {
      BigIsOf(s, 0);
    }
  }
}
