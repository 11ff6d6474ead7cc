/** The web console: the server's pages of messages, and the page that shows them with its "more" and
    "new" buttons, while messages are being added. Messages are the row numbers 1 to `max`. */
module Paging {

  // ---------------------------------------------------------------- the server

  const PAGE: nat := 10

  /** Row numbers fit an `int`. */
  const LIMIT: nat := 0x8000_0000

  /** Rows from `hi` down to `lo`. */
  function Down(hi: nat, lo: nat): (rows: seq<nat>)
    ensures |rows| == if hi >= lo then hi - lo + 1 else 0
    ensures forall i | 0 <= i < |rows| :: rows[i] == hi - i
    decreases hi
  {
    if hi < lo then [] else if hi == 0 then [0] else [hi] + Down(hi - 1, lo)
  }

  /** `SELECT ... ORDER BY ID DESC LIMIT n OFFSET offset` */
  function Select(max: nat, n: nat, offset: nat): (rows: seq<nat>)
    ensures forall r | r in rows :: 1 <= r <= max
  {
    if offset >= max then []
    else
      var hi := max - offset;
      Down(hi, if n >= hi then 1 else hi - n + 1)
  }

  /** A reply: `{}`, or messages with where to go on. */
  datatype Reply = Nothing | Page(messages: seq<nat>, offset: nat, upper: nat)

  function PageOf(rows: seq<nat>, max: nat): Reply
    requires rows != [] && rows[|rows| - 1] <= max
  {
    Page(rows, max - rows[|rows| - 1] + 1, max)
  }

  function Reads(max: nat, n: nat, offset: nat): Reply {
    var rows := Select(max, n, offset);
    if rows == [] then Nothing
    else
      assert rows[|rows| - 1] in rows;
      PageOf(rows, max)
  }

  /** Unsigned subtraction. */
  function Minus(a: nat, b: nat): nat {
    (a - b) % 0x1_0000_0000
  }

  /** `LoginHTTPRequest::Console`: `upper` and `offset` are zero when the request has none. */
  function Console(max: nat, isNew: bool, upper: nat, offset: nat): Reply {
    if upper == 0 || max == 0 then Reads(max, PAGE, offset)
    else if isNew then Reads(max, Minus(max, upper), 0)
    else Reads(max, PAGE, offset + Minus(max, upper))
  }

  /** `Select::TryConsole`, with the loop that tracks the least id. */
  method TryConsole(max: nat, nRows: nat, offset: nat) returns (r: Reply)
    requires max < LIMIT
    ensures r == Reads(max, nRows, offset)
  {
    if max == 0 || max < offset {
      return Nothing;
    }
    var consoles := Select(max, nRows, offset);
    var minID := 0;
    var messages := [];
    for i := 0 to |consoles|
      invariant messages == consoles[..i]
      invariant minID == if i == 0 then 0 else consoles[i - 1]
    {
      assert consoles[i] in consoles;
      if minID > consoles[i] || minID == 0 {
        minID := consoles[i];
      }
      messages := messages + [consoles[i]];
    }
    if messages == [] {
      return Nothing;
    }
    assert messages == consoles;
    return Page(messages, max - minID + 1, max);
  }

  /** The rows of a reply, from `top` down, no more than `n` of them, and where to go on. */
  ghost predicate IsPage(r: Reply, max: nat, top: int, n: nat) {
    if top <= 0 || n == 0 then r == Nothing
    else
      && r.Page? && r.upper == max && |r.messages| == (if n <= top then n else top)
      && (forall i | 0 <= i < |r.messages| :: r.messages[i] == top - i)
      && r.offset == max - r.messages[|r.messages| - 1] + 1
  }

  /** The rows of the first page. */
  function FirstRows(max: nat): seq<nat> {
    Down(max, if max < 10 then 1 else max - 9)
  }

  /** Which rows each request gets: the first page begins at the offset; "more" goes on where its bound was
      the maximum; "new" gets what is above its bound, and all rows if the bound is above them. */
  lemma ConsoleServes(max: nat, isNew: bool, upper: nat, offset: nat)
    requires max < 0x8000_0000 && upper < 0x8000_0000
    ensures upper == 0 ==> IsPage(Console(max, isNew, upper, offset), max, max - offset, 10)
    ensures 0 < upper <= max && !isNew ==> IsPage(Console(max, isNew, upper, offset), max, upper - offset, 10)
    ensures 0 < upper <= max && isNew ==> IsPage(Console(max, isNew, upper, offset), max, max, max - upper)
    ensures upper > max && !isNew ==> Console(max, isNew, upper, offset) == Nothing
    ensures upper > max && isNew ==> IsPage(Console(max, isNew, upper, offset), max, max, max)
  {
    MinusIs(max, upper);
    var from := if upper == 0 || max == 0 then offset else if isNew then 0 else offset + Minus(max, upper);
    ReadsServe(max, if upper != 0 && max != 0 && isNew then Minus(max, upper) else 10, from);
  }

  lemma MinusIs(a: nat, b: nat)
    requires a < 0x8000_0000 && b < 0x8000_0000
    ensures Minus(a, b) == if b <= a then a - b else a + 0x1_0000_0000 - b
  {
  }

  lemma ReadsServe(max: nat, n: nat, offset: nat)
    ensures n < max ==> IsPage(Reads(max, n, offset), max, max - offset, n)
    ensures n >= max ==> IsPage(Reads(max, n, offset), max, max - offset, max)
  {
    var rows := Select(max, n, offset);
    assert rows != [] ==> rows[|rows| - 1] in rows;
  }

  method ServeConsole(max: nat, isNew: bool, upper: nat, offset: nat) returns (r: Reply)
    requires max < LIMIT
    ensures r == Console(max, isNew, upper, offset)
  {
    var from, nRows := offset, PAGE;
    if upper != 0 && max != 0 {
      if isNew {
        from := 0;
        nRows := Minus(max, upper);
      } else {
        from := from + Minus(max, upper);
      }
    }
    r := TryConsole(max, nRows, from);
  }

  // ---------------------------------------------------------------- the page

  /** What the page shows: rows that "new" put on top, and the first page with what "more" put below it.
      `queue` holds the reply that the next "more" sends back, `polled` is `db.max` and `upper` the
      upper bound of the next "new". */
  datatype View = View(news: seq<nat>, rows: seq<nat>, queue: seq<Reply>, moreShown: bool,
                       polled: nat, newShown: bool, upper: nat)

  /** `more.update` */
  function Offered(v: View, obj: Reply): View {
    if obj.Page? && obj.offset >= obj.upper then v.(moreShown := false)
    else v.(queue := v.queue + [obj], moreShown := true)
  }

  function Messages(obj: Reply): seq<nat> {
    if obj.Page? then obj.messages else []
  }

  /** `App.init` with the reply to the first request. */
  function FirstView(obj: Reply): View {
    Offered(View([], Messages(obj), [], true, if obj.Page? then obj.upper else 0, false, 0), obj)
  }

  /** A click on "more" and its reply. */
  function MoreClicked(v: View, max: nat): View {
    if !v.moreShown || v.queue == [] then v
    else
      var sent := v.queue[0];
      var asked := v.(queue := v.queue[1..]);
      var obj := if sent.Page? then Console(max, false, sent.upper, sent.offset) else Console(max, false, 0, 0);
      if obj == Nothing then asked.(moreShown := false)
      else Offered(asked.(rows := asked.rows + obj.messages), obj)
  }

  /** After a reply without rows, "more" asks for the first page again. */
  lemma MoreAsksAgain(v: View, max: nat)
    requires v.moreShown && v.queue != [] && v.queue[0] == Nothing && max < 0x8000_0000
    ensures var after, first := MoreClicked(v, max), FirstRows(max);
            && after.rows == v.rows + first && after.news == v.news && (after.moreShown <==> max > 10)
            && |first| == (if max < 10 then max else 10) && forall i | 0 <= i < |first| :: first[i] == max - i
  {
    ConsoleServes(max, false, 0, 0);
  }

  /** `updater.done` with the maximum that the server has read. */
  function Polled(v: View, max: nat): View {
    if max > v.polled && v.polled != 0 then
      v.(newShown := true, upper := if v.newShown then v.upper else v.polled, polled := max)
    else v
  }

  /** A click on "new" and its reply. */
  function NewClicked(v: View, max: nat): View {
    if !v.newShown then v
    else v.(news := Messages(Console(max, true, v.upper, 0)) + v.news, newShown := false)
  }

  datatype Action = Insert(n: nat) | More | Poll(read: nat) | New

  /** The server's highest row, and the page. */
  datatype Site = Site(max: nat, view: View)

  function Step(s: Site, a: Action): Site {
    match a
    case Insert(n) => s.(max := s.max + n)
    case More => s.(view := MoreClicked(s.view, s.max))
    case Poll(read) => s.(view := Polled(s.view, read))
    case New => s.(view := NewClicked(s.view, s.max))
  }

  function Open(max: nat): Site {
    Site(max, FirstView(Console(max, false, 0, 0)))
  }

  function Run(s: Site, run: seq<Action>): Site
    decreases |run|
  {
    if run == [] then s else Run(Step(s, run[0]), run[1..])
  }

  /** Rows stay below the limit, and a poll brings a maximum that the server had when it was sent: no
      more than it has on arrival. */
  ghost predicate Legal(s: Site, run: seq<Action>)
    decreases |run|
  {
    run == [] || (Allowed(s, run[0]) && Legal(Step(s, run[0]), run[1..]))
  }

  predicate Allowed(s: Site, a: Action) {
    match a
    case Insert(n) => s.max + n < LIMIT
    case Poll(read) => read <= s.max
    case _ => true
  }

  // ---------------------------------------------------------------- "more"

  /** The first page began at `first`; everything from there down to `last` is shown, once and in order,
      and the button is hidden exactly when that is down to row 1. */
  ghost predicate MoreInv(s: Site, first: nat, last: nat) {
    && 1 <= last <= first <= s.max < LIMIT
    && s.view.rows == Down(first, last)
    && (s.view.moreShown <==> last > 1)
    && (last > 1 ==> |s.view.queue| == 1 && s.view.queue[0].Page?
                     && first <= s.view.queue[0].upper <= s.max
                     && s.view.queue[0].offset == s.view.queue[0].upper - last + 1)
    && (last == 1 ==> s.view.queue == [])
  }

  lemma DownJoins(hi: nat, mid: nat, lo: nat)
    requires lo < mid <= hi
    ensures Down(hi, mid) + Down(mid - 1, lo) == Down(hi, lo)
  {
  }

  /** A page read from the rows below `last`. */
  lemma ReadsBelow(max: nat, last: nat)
    requires 1 < last <= max + 1
    ensures var lo := if last <= PAGE then 1 else last - PAGE;
            Reads(max, PAGE, max - last + 1) == Page(Down(last - 1, lo), max - lo + 1, max)
  {
    var lo := if last <= PAGE then 1 else last - PAGE;
    var rows := Select(max, PAGE, max - last + 1);
    assert rows == Down(last - 1, lo);
    assert rows[|rows| - 1] == lo;
  }

  /** The reply to the first request, and the page with it. */
  lemma OpenedView(max: nat)
    requires 0 < max
    ensures var lo := if max < PAGE then 1 else max + 1 - PAGE;
            var obj := Page(Down(max, lo), max - lo + 1, max);
            Open(max) == Site(max, Offered(View([], Down(max, lo), [], true, max, false, 0), obj))
  {
    ReadsBelow(max, max + 1);
  }

  lemma FirstPage(max: nat)
    requires 0 < max < LIMIT
    ensures exists last: nat :: MoreInv(Open(max), max, last)
  {
    OpenedView(max);
    assert MoreInv(Open(max), max, if max < PAGE then 1 else max + 1 - PAGE);
  }

  lemma SentOffset(max: nat, upper: nat, offset: nat, last: nat)
    requires 1 < last <= upper <= max < LIMIT && offset == upper - last + 1
    ensures offset + Minus(max, upper) == max - last + 1
  {
  }

  /** The reply to a click on "more". */
  lemma MoreReply(max: nat, upper: nat, offset: nat, last: nat)
    requires 1 < last <= upper <= max < LIMIT && offset == upper - last + 1
    ensures var lo := if last <= PAGE then 1 else last - PAGE;
            Console(max, false, upper, offset) == Page(Down(last - 1, lo), max - lo + 1, max)
  {
    SentOffset(max, upper, offset, last);
    ReadsFrom(max, upper, offset, max - last + 1);
    ReadsBelow(max, last);
  }

  lemma ReadsFrom(max: nat, upper: nat, offset: nat, from: nat)
    requires upper != 0 && max != 0 && offset + Minus(max, upper) == from
    ensures Console(max, false, upper, offset) == Reads(max, PAGE, from)
  {
  }

  /** The reply on the page. */
  lemma MoreArrives(v: View, max: nat, obj: Reply)
    requires v.moreShown && |v.queue| == 1 && v.queue[0].Page?
    requires obj == Console(max, false, v.queue[0].upper, v.queue[0].offset) && obj.Page?
    ensures MoreClicked(v, max) == Offered(v.(queue := [], rows := v.rows + obj.messages), obj)
  {
    assert v.queue[1..] == [];
  }

  /** Each click shows the next ten rows, or the rest, however many rows were added since the last. */
  lemma MoreShowsNext(s: Site, first: nat, last: nat)
    requires MoreInv(s, first, last) && last > 1
    ensures MoreInv(Step(s, More), first, if last <= PAGE then 1 else last - PAGE)
  {
    var lo := if last <= PAGE then 1 else last - PAGE;
    var sent := s.view.queue[0];
    MoreReply(s.max, sent.upper, sent.offset, last);
    DownJoins(first, last, lo);
    MoreArrives(s.view, s.max, Page(Down(last - 1, lo), s.max - lo + 1, s.max));
  }

  lemma StepKeepsMore(s: Site, a: Action, first: nat, last: nat)
    requires MoreInv(s, first, last) && Allowed(s, a)
    ensures exists l: nat :: l <= last && MoreInv(Step(s, a), first, l)
  {
    if a.More? && last > 1 {
      MoreShowsNext(s, first, last);
    } else {
      assert MoreInv(Step(s, a), first, last);
    }
  }

  /** Over every run, the rows from the first page's maximum down to the last one shown are shown exactly
      once and in descending order. */
  lemma {:induction false} MoreIsExact(s: Site, run: seq<Action>, first: nat, last: nat)
    requires MoreInv(s, first, last) && Legal(s, run)
    ensures exists l: nat :: l <= last && MoreInv(Run(s, run), first, l)
    decreases |run|
  {
    if run == [] {
      assert MoreInv(Run(s, run), first, last);
    } else {
      StepKeepsMore(s, run[0], first, last);
      var l: nat :| l <= last && MoreInv(Step(s, run[0]), first, l);
      MoreIsExact(Step(s, run[0]), run[1..], first, l);
      var m: nat :| m <= l && MoreInv(Run(Step(s, run[0]), run[1..]), first, m);
      assert MoreInv(Run(s, run), first, m);
    }
  }

  function Clicks(run: seq<Action>): nat {
    if run == [] then 0 else (if run[0].More? then 1 else 0) + Clicks(run[1..])
  }

  /** With enough clicks everything down to row 1 is shown, and the button is hidden. */
  lemma {:induction false} MoreFinishes(s: Site, run: seq<Action>, first: nat, last: nat)
    requires MoreInv(s, first, last) && Legal(s, run) && last <= 1 + PAGE * Clicks(run)
    ensures MoreInv(Run(s, run), first, 1)
    decreases |run|
  {
    if run != [] {
      if run[0].More? && last > 1 {
        MoreShowsNext(s, first, last);
        MoreFinishes(Step(s, run[0]), run[1..], first, if last <= PAGE then 1 else last - PAGE);
      } else {
        assert MoreInv(Step(s, run[0]), first, last);
        MoreFinishes(Step(s, run[0]), run[1..], first, last);
      }
    }
  }

  // ---------------------------------------------------------------- "new"

  ghost predicate Shows(v: View, r: nat) {
    r in v.news || r in v.rows
  }

  /** From the first page's top row on, all rows up to `polled` are shown while the button is hidden, and
      all up to `upper` while it is shown. */
  ghost predicate NewInv(s: Site, first: nat) {
    && 0 < first <= s.view.polled <= s.max < LIMIT
    && first in s.view.rows
    && (s.view.newShown ==> first <= s.view.upper < s.view.polled)
    && (forall r | first <= r <= (if s.view.newShown then s.view.upper else s.view.polled) :: Shows(s.view, r))
  }

  lemma NewPage(max: nat, upper: nat)
    requires 0 < upper <= max < LIMIT
    ensures Messages(Console(max, true, upper, 0)) == Down(max, upper + 1)
  {
    assert Minus(max, upper) == max - upper;
  }

  lemma OpenedFields(max: nat)
    requires 0 < max
    ensures var s := Open(max);
            && s.max == max && s.view.polled == max && !s.view.newShown && s.view.news == []
            && s.view.rows != [] && s.view.rows[0] == max
  {
    OpenedView(max);
  }

  lemma ShownFromTop(s: Site)
    requires 0 < s.view.polled == s.max < LIMIT && !s.view.newShown && s.view.rows != [] && s.view.rows[0] == s.max
    ensures NewInv(s, s.max)
  {
    assert Shows(s.view, s.view.rows[0]);
  }

  lemma FirstShown(max: nat)
    requires 0 < max < LIMIT
    ensures NewInv(Open(max), max)
  {
    OpenedFields(max);
    ShownFromTop(Open(max));
  }

  lemma NewClickShows(s: Site, first: nat)
    requires NewInv(s, first) && s.view.newShown
    ensures NewInv(Step(s, New), first)
    ensures Step(s, New).view.news == Down(s.max, s.view.upper + 1) + s.view.news
    ensures forall r | first <= r <= s.max :: Shows(Step(s, New).view, r)
  {
    var v, v' := s.view, Step(s, New).view;
    NewPage(s.max, v.upper);
    var fetched := Down(s.max, v.upper + 1);
    forall r | first <= r <= s.max ensures Shows(v', r) {
      if r <= v.upper {
        assert Shows(v, r);
      } else {
        assert fetched[s.max - r] == r;
        assert v'.news[s.max - r] == r;
      }
    }
  }

  lemma StepKeepsNew(s: Site, a: Action, first: nat)
    requires NewInv(s, first) && Allowed(s, a)
    ensures NewInv(Step(s, a), first)
  {
    match a {
      case Insert(_) =>
      case New =>
        if s.view.newShown {
          NewClickShows(s, first);
        }
      case Poll(_) =>
        forall r | Shows(s.view, r) ensures Shows(Step(s, a).view, r) {
        }
      case More =>
        var v' := Step(s, a).view;
        assert s.view.rows <= v'.rows && v'.news == s.view.news;
        forall r | Shows(s.view, r) ensures Shows(v', r) {
        }
    }
  }

  /** Polling leaves no gap, over every run. */
  lemma {:induction false} NewHasNoGap(s: Site, run: seq<Action>, first: nat)
    requires NewInv(s, first) && Legal(s, run)
    ensures NewInv(Run(s, run), first)
    decreases |run|
  {
    if run != [] {
      StepKeepsNew(s, run[0], first);
      NewHasNoGap(Step(s, run[0]), run[1..], first);
    }
  }

  // ---------------------------------------------------------------- rows that are shown twice

  /** The first row of the page. */
  function TopRow(v: View): nat {
    if v.news != [] then v.news[0] else if v.rows != [] then v.rows[0] else 0
  }

  /** The rows on top are those above the first page's maximum, up to `top`. */
  ghost predicate NewsUpto(v: View, first: nat, top: nat) {
    && first <= top
    && (forall r | r in v.news :: first < r <= top)
    && (forall r | first < r <= top :: r in v.news)
  }

  /** In every reachable state the page begins with the highest row that it shows, and the next "new" asks
      from that row on or from below it. */
  ghost predicate PageInv(s: Site, first: nat) {
    && NewInv(s, first) && s.view.rows != [] && s.view.rows[0] == first
    && NewsUpto(s.view, first, TopRow(s.view))
    && (if s.view.newShown then s.view.upper else s.view.polled) <= TopRow(s.view) <= s.max
  }

  lemma OpenPage(max: nat)
    requires 0 < max < LIMIT
    ensures PageInv(Open(max), max) && Open(max).view.news == []
  {
    FirstShown(max);
    OpenedFields(max);
  }

  lemma NewKeepsPage(s: Site, first: nat)
    requires PageInv(s, first) && s.view.newShown
    ensures PageInv(Step(s, New), first) && TopRow(Step(s, New).view) == s.max
  {
    NewClickShows(s, first);
    var fetched, v' := Down(s.max, s.view.upper + 1), Step(s, New).view;
    assert v'.news[0] == fetched[0] == s.max;
    forall r | first < r <= s.max ensures r in v'.news {
      if r <= s.view.upper {
        assert r in s.view.news;
      } else {
        assert fetched[s.max - r] == r;
      }
    }
    forall r | r in v'.news ensures first < r <= s.max {
      if r in fetched {
        var i :| 0 <= i < |fetched| && fetched[i] == r;
      }
    }
  }

  lemma StepKeepsPage(s: Site, a: Action, first: nat)
    requires PageInv(s, first) && Allowed(s, a)
    ensures PageInv(Step(s, a), first)
  {
    StepKeepsNew(s, a, first);
    if a.New? && s.view.newShown {
      NewKeepsPage(s, first);
    } else if a.More? {
      assert s.view.rows <= Step(s, a).view.rows;
    }
  }

  ghost predicate Once(s: seq<nat>) {
    forall i, j | 0 <= i < j < |s| :: s[i] != s[j]
  }

  /** A click on "new" shows a row a second time exactly if the page begins above its upper bound: with
      rows that were added between the poll and an earlier click. */
  lemma NewRepeatsIff(s: Site, first: nat)
    requires PageInv(s, first) && s.view.newShown && Once(s.view.news)
    ensures Once(Step(s, New).view.news) <==> TopRow(s.view) <= s.view.upper
  {
    NewClickShows(s, first);
    JoinedOnceIff(s.max, s.view.upper + 1, s.view.news, first, TopRow(s.view));
  }

  /** No click of the run on "new" finds a page that begins above its upper bound. */
  ghost predicate NewFitsTop(s: Site, run: seq<Action>)
    decreases |run|
  {
    run == [] ||
    ((run[0].New? && s.view.newShown ==> TopRow(s.view) <= s.view.upper) && NewFitsTop(Step(s, run[0]), run[1..]))
  }

  lemma {:induction false} RepeatsStay(a: seq<nat>, b: seq<nat>)
    requires !Once(b)
    ensures !Once(a + b)
  {
    var i, j :| 0 <= i < j < |b| && b[i] == b[j];
    assert (a + b)[|a| + i] == (a + b)[|a| + j];
  }

  lemma StepKeepsRepeats(s: Site, a: Action)
    requires !Once(s.view.news)
    ensures !Once(Step(s, a).view.news)
  {
    if a.New? && s.view.newShown {
      RepeatsStay(Messages(Console(s.max, true, s.view.upper, 0)), s.view.news);
    }
  }

  lemma {:induction false} RunKeepsRepeats(s: Site, run: seq<Action>)
    requires !Once(s.view.news)
    ensures !Once(Run(s, run).view.news)
    decreases |run|
  {
    if run != [] {
      StepKeepsRepeats(s, run[0]);
      RunKeepsRepeats(Step(s, run[0]), run[1..]);
    }
  }

  /** Over every run "new" shows no row twice if and only if every click on it found a page that did not
      begin above its upper bound. */
  lemma {:induction false} NewsOnceIff(s: Site, run: seq<Action>, first: nat)
    requires PageInv(s, first) && Once(s.view.news) && Legal(s, run)
    ensures PageInv(Run(s, run), first)
    ensures Once(Run(s, run).view.news) <==> NewFitsTop(s, run)
    decreases |run|
  {
    if run != [] {
      var a, next := run[0], Step(s, run[0]);
      StepKeepsPage(s, a, first);
      if a.New? && s.view.newShown {
        NewRepeatsIff(s, first);
      }
      if Once(next.view.news) {
        NewsOnceIff(next, run[1..], first);
      } else {
        RunKeepsRepeats(next, run[1..]);
        PageIsKept(next, run[1..], first);
      }
    }
  }

  lemma {:induction false} PageIsKept(s: Site, run: seq<Action>, first: nat)
    requires PageInv(s, first) && Legal(s, run)
    ensures PageInv(Run(s, run), first)
    decreases |run|
  {
    if run != [] {
      StepKeepsPage(s, run[0], first);
      PageIsKept(Step(s, run[0]), run[1..], first);
    }
  }

  /** The same for the whole page. */
  lemma {:induction false} PageOnceIff(s: Site, run: seq<Action>, first: nat, last: nat)
    requires PageInv(s, first) && MoreInv(s, first, last) && Once(s.view.news) && Legal(s, run)
    ensures Once(Run(s, run).view.news + Run(s, run).view.rows) <==> NewFitsTop(s, run)
  {
    NewsOnceIff(s, run, first);
    MoreIsExact(s, run, first, last);
    var l: nat :| l <= last && MoreInv(Run(s, run), first, l);
    BelowOnceIff(Run(s, run).view.news, first, l);
  }

  /** The same from the first request on. */
  lemma {:induction false} OpenOnceIff(max: nat, run: seq<Action>)
    requires 0 < max < LIMIT && Legal(Open(max), run)
    ensures Once(Run(Open(max), run).view.news + Run(Open(max), run).view.rows) <==> NewFitsTop(Open(max), run)
  {
    var s := Open(max);
    OpenPage(max);
    FirstPage(max);
    var last: nat :| MoreInv(s, max, last);
    PageOnceIff(s, run, max, last);
  }

  lemma {:induction false} BelowOnceIff(news: seq<nat>, first: nat, last: nat)
    requires forall r | r in news :: first < r
    ensures Once(news + Down(first, last)) <==> Once(news)
  {
    var rows := Down(first, last);
    var all := news + rows;
    if Once(news) {
      forall i, j | 0 <= i < j < |all| ensures all[i] != all[j] {
        if i < |news| <= j {
          assert all[i] in news && all[j] == rows[j - |news|];
        }
      }
    }
    if Once(all) {
      forall i, j | 0 <= i < j < |news| ensures news[i] != news[j] {
        assert all[i] == news[i] && all[j] == news[j];
      }
    }
  }

  lemma JoinedOnceIff(hi: nat, lo: nat, news: seq<nat>, first: nat, top: nat)
    requires first < lo <= hi && top <= hi && Once(news)
    requires (forall r | r in news :: first < r <= top) && (forall r | first < r <= top :: r in news)
    ensures Once(Down(hi, lo) + news) <==> top < lo
  {
    var fetched := Down(hi, lo);
    var all := fetched + news;
    if top < lo {
      forall i, j | 0 <= i < j < |all| ensures all[i] != all[j] {
        if i < |fetched| <= j {
          assert news[j - |fetched|] in news;
        }
      }
    } else {
      assert top in news;
      var j :| 0 <= j < |news| && news[j] == top;
      assert all[hi - top] == top == all[|fetched| + j];
    }
  }

  /** That does happen: a row added after the poll is shown by two clicks. */
  lemma NewMayRepeat()
    ensures var run := [Insert(1), Poll(2), Insert(1), New, Poll(3), New];
            Legal(Open(1), run) && Run(Open(1), run).view.news == [3, 3, 2]
  {
    ReadsBelow(1, 2);
    var s0 := Open(1);
    var s1 := Step(Step(Step(s0, Insert(1)), Poll(2)), Insert(1));
    NewPage(3, 1);
    var s2 := Step(s1, New);
    assert Down(3, 2) == [3, 2] && s2.view.news == [3, 2] + [] == [3, 2];
    NewPage(3, 2);
    var s3 := Step(Step(s2, Poll(3)), New);
    assert Down(3, 3) == [3] && s3.view.news == [3] + [3, 2] == [3, 3, 2];
    SixSteps(s0, Insert(1), Poll(2), Insert(1), New, Poll(3), New);
  }

  lemma {:induction false} SixSteps(s: Site, a: Action, b: Action, c: Action, d: Action, e: Action, f: Action)
    ensures var s3 := Step(Step(Step(s, a), b), c);
            Run(s, [a, b, c, d, e, f]) == Step(Step(Step(s3, d), e), f)
  {
    var s1 := Step(s, a);
    var s2 := Step(s1, b);
    var s3 := Step(s2, c);
    RunCons(s, a, [b, c, d, e, f]);
    RunCons(s1, b, [c, d, e, f]);
    RunCons(s2, c, [d, e, f]);
    RunCons(s3, d, [e, f]);
    RunCons(Step(s3, d), e, [f]);
    RunCons(Step(Step(s3, d), e), f, []);
  }

  lemma {:induction false} RunCons(s: Site, a: Action, run: seq<Action>)
    ensures Run(s, [a] + run) == Run(Step(s, a), run)
    ensures Legal(s, [a] + run) <==> Allowed(s, a) && Legal(Step(s, a), run)
    ensures run == [] ==> Run(s, [a]) == Step(s, a)
  {
    assert ([a] + run)[1..] == run;
    if run == [] {
      assert [a] + run == [a];
    }
  }

  // ---------------------------------------------------------------- what polls do

  /** The greatest of the first maximum and all that polls of the run have brought. */
  function Highest(max: nat, run: seq<Action>): nat
    decreases |run|
  {
    if run == [] then max
    else
      var before, last := Highest(max, run[..|run| - 1]), run[|run| - 1];
      if last.Poll? && last.read > before then last.read else before
  }

  lemma {:induction false} HighestIs(max: nat, run: seq<Action>)
    ensures max <= Highest(max, run)
    ensures forall i | 0 <= i < |run| && run[i].Poll? :: run[i].read <= Highest(max, run)
    ensures Highest(max, run) == max || exists i | 0 <= i < |run| :: run[i] == Poll(Highest(max, run))
    decreases |run|
  {
    if run != [] {
      var init := run[..|run| - 1];
      HighestIs(max, init);
      assert forall i | 0 <= i < |init| :: init[i] == run[i];
    }
  }

  /** The poll brought a maximum above all before it. */
  ghost predicate Raises(max: nat, run: seq<Action>, i: nat) {
    i < |run| && run[i].Poll? && run[i].read > Highest(max, run[..i])
  }

  /** And there has been no click on "new" since. */
  ghost predicate IsPending(max: nat, run: seq<Action>, i: nat) {
    Raises(max, run, i) && forall j | i < j < |run| :: !run[j].New?
  }

  ghost predicate IsFirstPending(max: nat, run: seq<Action>, i: nat) {
    IsPending(max, run, i) && forall k | 0 <= k < i :: !IsPending(max, run, k)
  }

  lemma {:induction false} RunLast(s: Site, run: seq<Action>)
    requires run != []
    ensures Run(s, run) == Step(Run(s, run[..|run| - 1]), run[|run| - 1])
    decreases |run|
  {
    if |run| == 1 {
      assert run[..0] == [] && run[1..] == [];
      assert Run(Step(s, run[0]), []) == Step(s, run[0]);
    } else {
      RunLast(Step(s, run[0]), run[1..]);
      assert run[1..][..|run| - 2] == run[..|run| - 1][1..] && run[..|run| - 1][0] == run[0];
    }
  }

  lemma RaisesBefore(max: nat, run: seq<Action>, i: nat)
    requires i < |run| - 1
    ensures Raises(max, run[..|run| - 1], i) <==> Raises(max, run, i)
  {
    assert run[..|run| - 1][..i] == run[..i];
  }

  lemma PendingBefore(max: nat, run: seq<Action>, i: nat)
    requires i < |run| - 1
    ensures IsPending(max, run, i) <==> IsPending(max, run[..|run| - 1], i) && !run[|run| - 1].New?
  {
    RaisesBefore(max, run, i);
    var init := run[..|run| - 1];
    assert forall j | 0 <= j < |init| :: init[j] == run[j];
  }

  /** What a view says of the polls so far. */
  ghost predicate TellsPolls(v: View, max: nat, run: seq<Action>) {
    && v.polled == Highest(max, run)
    && (v.newShown <==> exists i: nat :: IsPending(max, run, i))
    && (forall i: nat | IsFirstPending(max, run, i) :: v.upper == Highest(max, run[..i]))
  }

  lemma MoreKeepsPolls(v: View, max: nat)
    ensures var v' := MoreClicked(v, max); v'.polled == v.polled && v'.newShown == v.newShown && v'.upper == v.upper
  {
  }

  lemma NewKeepsPolls(v: View, max: nat)
    ensures NewClicked(v, max).polled == v.polled && !NewClicked(v, max).newShown
  {
  }

  lemma PollTells(v: View, v': View, max: nat, run: seq<Action>)
    requires run != [] && run[|run| - 1].Poll? && 0 < max && TellsPolls(v, max, run[..|run| - 1])
    requires v' == Polled(v, run[|run| - 1].read)
    ensures TellsPolls(v', max, run)
  {
    var n := |run| - 1;
    HighestIs(max, run[..n]);
    assert IsPending(max, run, n) <==> Raises(max, run, n);
    forall i: nat ensures IsPending(max, run, i) <==> IsPending(max, run[..n], i) || (i == n && Raises(max, run, n)) {
      if i < n {
        PendingBefore(max, run, i);
      }
    }
    forall i: nat | IsFirstPending(max, run, i) ensures v'.upper == Highest(max, run[..i]) {
      if i < n {
        assert IsFirstPending(max, run[..n], i);
        assert run[..n][..i] == run[..i];
      }
    }
  }

  lemma OtherTells(v: View, v': View, max: nat, run: seq<Action>)
    requires run != [] && !run[|run| - 1].Poll? && TellsPolls(v, max, run[..|run| - 1])
    requires v'.polled == v.polled
    requires if run[|run| - 1].New? then !v'.newShown else v'.newShown == v.newShown && v'.upper == v.upper
    ensures TellsPolls(v', max, run)
  {
    var n := |run| - 1;
    forall i: nat ensures IsPending(max, run, i) <==> IsPending(max, run[..n], i) && !run[n].New? {
      if i < n {
        PendingBefore(max, run, i);
      }
    }
    forall i: nat | IsFirstPending(max, run, i) ensures v'.upper == Highest(max, run[..i]) {
      assert IsFirstPending(max, run[..n], i);
      assert run[..n][..i] == run[..i];
    }
  }

  /** Over every run from the first request on: `polled` is the greatest maximum seen so far; the button is
      shown exactly if some poll since the last click on "new" has brought a greater maximum than all before
      it; and `upper` is the greatest maximum before the first such poll. */
  lemma {:induction false} PollsAreKept(max: nat, run: seq<Action>)
    requires 0 < max
    ensures TellsPolls(Run(Open(max), run).view, max, run)
    decreases |run|
  {
    if run == [] {
      OpenedFields(max);
    } else {
      var n := |run| - 1;
      var s := Run(Open(max), run[..n]);
      PollsAreKept(max, run[..n]);
      RunLast(Open(max), run);
      match run[n] {
        case Poll(read) => PollTells(s.view, Polled(s.view, read), max, run);
        case New =>
          NewKeepsPolls(s.view, s.max);
          OtherTells(s.view, NewClicked(s.view, s.max), max, run);
        case More =>
          MoreKeepsPolls(s.view, s.max);
          OtherTells(s.view, MoreClicked(s.view, s.max), max, run);
        case Insert(_) => OtherTells(s.view, s.view, max, run);
      }
    }
  }

  /** If there were no rows at first, polls show nothing. */
  lemma {:induction false} NoRowsNoPolls(run: seq<Action>)
    ensures Run(Open(0), run).view.polled == 0 && !Run(Open(0), run).view.newShown
    decreases |run|
  {
    if run != [] {
      var n := |run| - 1;
      NoRowsNoPolls(run[..n]);
      RunLast(Open(0), run);
    }
  }

  // ---------------------------------------------------------------- the scripts of the page

  class Portal {
    var news: seq<nat>
    var rows: seq<nat>
    var queue: seq<Reply>
    var moreShown: bool
    var polled: nat
    var newShown: bool
    var upper: nat

    ghost function Shown(): View
      reads this
    {
      View(news, rows, queue, moreShown, polled, newShown, upper)
    }

    /** `init` with the reply to the first request. */
    constructor (obj: Reply)
      ensures Shown() == FirstView(obj)
    {
      news, rows, queue, moreShown := [], Messages(obj), [], true;
      polled, newShown, upper := 0, false, 0;
      new;
      if obj.Page? && obj.upper > polled {
        polled := obj.upper;
      }
      UpdateMore(obj);
    }

    /** `more.update` */
    method UpdateMore(obj: Reply)
      modifies this`queue, this`moreShown
      ensures Shown() == Offered(old(Shown()), obj)
    {
      if obj.Page? && obj.offset >= obj.upper {
        moreShown := false;
      } else {
        queue := queue + [obj];
        moreShown := true;
      }
    }

    /** `more.onClick`, the request, and `more.done` */
    method ClickMore(max: nat)
      requires max < LIMIT
      modifies this
      ensures Shown() == MoreClicked(old(Shown()), max)
    {
      if !moreShown || queue == [] {
        return;
      }
      var data := queue[0];
      queue := queue[1..];
      var obj;
      match data {
        case Nothing => obj := ServeConsole(max, false, 0, 0);
        case Page(_, offset, upper) => obj := ServeConsole(max, false, upper, offset);
      }
      if obj == Nothing {
        moreShown := false;
      } else {
        rows := rows + obj.messages;
        UpdateMore(obj);
      }
    }

    /** `updater.done`, and `news.update` where it is called. */
    method DonePoll(max: nat)
      modifies this`polled, this`newShown, this`upper
      ensures Shown() == Polled(old(Shown()), max)
    {
      if max > polled && polled != 0 {
        if !newShown {
          upper := polled;
          newShown := true;
        }
        polled := max;
      }
    }

    /** `news.onClick`, the request, and `news.onNew` */
    method ClickNew(max: nat)
      requires max < LIMIT
      modifies this`news, this`newShown
      ensures Shown() == NewClicked(old(Shown()), max)
    {
      if newShown {
        newShown := false;
        var obj := ServeConsole(max, true, upper, 0);
        news := Messages(obj) + news;
      }
    }
  }
}
