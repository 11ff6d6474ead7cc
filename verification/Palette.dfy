/** The appearance editor: exporting the parts that are switched on gives every colour that the user has
    chosen a new number, and reuses the number of a colour that an earlier part has brought. A part finds
    its component by equality, so that equal parts share the first one that is on. */
module Palette {
  import opened TextStream
  import opened JsonValue

  datatype Rgb = Rgb(red: int, green: int, blue: int)

  /** A material names its colour by number. */
  datatype Material = Material(name: string, color: string)

  /** A colour of the style. */
  datatype Swatch = Swatch(rgb: Rgb, number: string)

  /** A colour control: the material it is for and the colour it is set to. */
  datatype Color = Color(material: string, rgb: Rgb)

  datatype Part = Part(name: string, materials: seq<Material>)

  datatype Mesh = Mesh(name: string, parts: seq<Part>)

  datatype Slot = Slot(name: string, meshes: seq<Mesh>)

  /** The editor's entry for a part: its switch and its colour controls. */
  datatype Component = Component(on: bool, part: Part, colors: seq<Color>)

  // ---------------------------------------------------------------- the controls of a part

  /** The colours of the style with a material's number. */
  function Matching(style: seq<Swatch>, m: Material): seq<Color> {
    if style == [] then []
    else Matching(style[..|style| - 1], m)
         + (if style[|style| - 1].number == m.color then [Color(m.name, style[|style| - 1].rgb)] else [])
  }

  function Controls(style: seq<Swatch>, ms: seq<Material>): seq<Color> {
    if ms == [] then [] else Controls(style, ms[..|ms| - 1]) + Matching(style, ms[|ms| - 1])
  }

  /** The loops of the model's constructor over materials and colours. */
  method MakeControls(style: seq<Swatch>, ms: seq<Material>) returns (colors: seq<Color>)
    ensures colors == Controls(style, ms)
  {
    colors := [];
    for i := 0 to |ms|
      invariant colors == Controls(style, ms[..i])
    {
      ghost var before := colors;
      for k := 0 to |style|
        invariant colors == before + Matching(style[..k], ms[i])
      {
        assert style[..k + 1][..k] == style[..k];
        if style[k].number == ms[i].color {
          colors := colors + [Color(ms[i].name, style[k].rgb)];
        }
      }
      assert style[..|style|] == style && ms[..i + 1][..i] == ms[..i];
    }
    assert ms[..|ms|] == ms;
  }

  ghost predicate NumbersDiffer(style: seq<Swatch>) {
    forall i, j | 0 <= i < j < |style| :: style[i].number != style[j].number
  }

  ghost predicate HasNumber(style: seq<Swatch>, number: string) {
    exists k :: 0 <= k < |style| && style[k].number == number
  }

  /** One control for each material, in their order. */
  ghost predicate OneEach(colors: seq<Color>, ms: seq<Material>) {
    |colors| == |ms| && forall i | 0 <= i < |ms| :: colors[i].material == ms[i].name
  }

  lemma {:induction false} MatchingIsOne(style: seq<Swatch>, m: Material)
    requires NumbersDiffer(style)
    ensures |Matching(style, m)| == if HasNumber(style, m.color) then 1 else 0
    ensures HasNumber(style, m.color) ==> Matching(style, m)[0].material == m.name
  {
    if style != [] {
      var n := |style| - 1;
      MatchingIsOne(style[..n], m);
      if HasNumber(style[..n], m.color) {
        var k :| 0 <= k < n && style[..n][k].number == m.color;
        assert style[k].number == m.color;
      } else if HasNumber(style, m.color) {
        var k :| 0 <= k < |style| && style[k].number == m.color;
        assert forall j | 0 <= j < n :: style[..n][j] == style[j];
      }
    }
  }

  /** With different numbers in the style, and a number of the style in each material, each material has
      one control. */
  lemma {:induction false} ControlsAreOneEach(style: seq<Swatch>, ms: seq<Material>)
    requires NumbersDiffer(style) && forall i | 0 <= i < |ms| :: HasNumber(style, ms[i].color)
    ensures OneEach(Controls(style, ms), ms)
  {
    if ms != [] {
      var n := |ms| - 1;
      ControlsAreOneEach(style, ms[..n]);
      MatchingIsOne(style, ms[n]);
      OneMore(Controls(style, ms[..n]), ms, Matching(style, ms[n]));
    }
  }

  lemma {:induction false} OneMore(colors: seq<Color>, ms: seq<Material>, last: seq<Color>)
    requires ms != [] && OneEach(colors, ms[..|ms| - 1]) && |last| == 1 && last[0].material == ms[|ms| - 1].name
    ensures OneEach(colors + last, ms)
  {
  }

  // ---------------------------------------------------------------- exporting a part

  /** The number of the first colour of the style that is equal. */
  function Known(style: seq<Swatch>, rgb: Rgb): Option<string> {
    if style == [] then None
    else if style[0].rgb == rgb then Some(style[0].number)
    else Known(style[1..], rgb)
  }

  /** `material.color = number` for the materials of a name. */
  function Paint(ms: seq<Material>, name: string, number: string): (r: seq<Material>)
    ensures |r| == |ms|
    ensures forall i | 0 <= i < |ms| :: r[i] == if ms[i].name == name then ms[i].(color := number) else ms[i]
  {
    seq(|ms|, i requires 0 <= i < |ms| => if ms[i].name == name then ms[i].(color := number) else ms[i])
  }

  /** The filter: a colour that the style has already is painted with its number and left out. */
  function Reuse(style: seq<Swatch>, colors: seq<Color>, ms: seq<Material>): (seq<Color>, seq<Material>) {
    if colors == [] then ([], ms)
    else
      var c := colors[|colors| - 1];
      var (kept, painted) := Reuse(style, colors[..|colors| - 1], ms);
      match Known(style, c.rgb)
      case Some(number) => (kept, Paint(painted, c.material, number))
      case None => (kept + [c], painted)
  }

  datatype Numbering = Numbering(ms: seq<Material>, number: string, next: nat)

  /** The map's inner loop: each material of the name takes the next number. */
  function Take(ms: seq<Material>, name: string, next: nat): Numbering {
    if ms == [] then Numbering([], "-1", next)
    else
      var m := ms[|ms| - 1];
      var r := Take(ms[..|ms| - 1], name, next);
      if m.name == name then Numbering(r.ms + [m.(color := Digits(r.next))], Digits(r.next), r.next + 1)
      else r.(ms := r.ms + [m])
  }

  datatype Export = Export(style: seq<Swatch>, ms: seq<Material>, next: nat)

  /** The map: the colours that are new to the style. */
  function Assign(colors: seq<Color>, ms: seq<Material>, next: nat): Export {
    if colors == [] then Export([], ms, next)
    else
      var c := colors[|colors| - 1];
      var r := Assign(colors[..|colors| - 1], ms, next);
      var taken := Take(r.ms, c.material, r.next);
      Export(r.style + [Swatch(c.rgb, taken.number)], taken.ms, taken.next)
  }

  function ExportPart(style: seq<Swatch>, next: nat, colors: seq<Color>, ms: seq<Material>): Export {
    var (kept, painted) := Reuse(style, colors, ms);
    var r := Assign(kept, painted, next);
    r.(style := style + r.style)
  }

  // ---------------------------------------------------------------- in which order the style grows

  function Rgbs(style: seq<Swatch>): seq<Rgb> {
    seq(|style|, i requires 0 <= i < |style| => style[i].rgb)
  }

  ghost predicate Has(style: seq<Swatch>, rgb: Rgb) {
    exists k :: 0 <= k < |style| && style[k].rgb == rgb
  }

  /** The colours that the style does not have, from the first control to the last. */
  ghost function Fresh(style: seq<Swatch>, colors: seq<Color>): seq<Rgb> {
    if colors == [] then []
    else (if Has(style, colors[0].rgb) then [] else [colors[0].rgb]) + Fresh(style, colors[1..])
  }

  lemma {:induction false} FreshAdd(style: seq<Swatch>, colors: seq<Color>, c: Color)
    ensures Fresh(style, colors + [c]) == Fresh(style, colors) + if Has(style, c.rgb) then [] else [c.rgb]
  {
    if colors != [] {
      FreshAdd(style, colors[1..], c);
      assert (colors + [c])[1..] == colors[1..] + [c];
    } else {
      assert (colors + [c])[1..] == [];
    }
  }

  lemma {:induction false} KnownIsHas(style: seq<Swatch>, rgb: Rgb)
    ensures Known(style, rgb).Some? <==> Has(style, rgb)
  {
    if style != [] {
      KnownIsHas(style[1..], rgb);
      if Has(style, rgb) && style[0].rgb != rgb {
        var k :| 0 <= k < |style| && style[k].rgb == rgb;
        assert style[1..][k - 1].rgb == rgb;
      }
      if Has(style[1..], rgb) {
        var k :| 0 <= k < |style[1..]| && style[1..][k].rgb == rgb;
        assert style[k + 1].rgb == rgb;
      }
    }
  }

  function ColorsOf(colors: seq<Color>): seq<Rgb> {
    seq(|colors|, i requires 0 <= i < |colors| => colors[i].rgb)
  }

  lemma {:induction false} ReuseKeepsFresh(style: seq<Swatch>, colors: seq<Color>, ms: seq<Material>)
    ensures ColorsOf(Reuse(style, colors, ms).0) == Fresh(style, colors)
  {
    if colors != [] {
      var init, c := colors[..|colors| - 1], colors[|colors| - 1];
      ReuseKeepsFresh(style, init, ms);
      FreshAdd(style, init, c);
      KnownIsHas(style, c.rgb);
      assert colors == init + [c];
      var kept := Reuse(style, init, ms).0;
      assert ColorsOf(kept + [c]) == ColorsOf(kept) + [c.rgb];
    }
  }

  lemma {:induction false} AssignAddsColors(colors: seq<Color>, ms: seq<Material>, next: nat)
    ensures Rgbs(Assign(colors, ms, next).style) == ColorsOf(colors)
  {
    if colors != [] {
      var init, c := colors[..|colors| - 1], colors[|colors| - 1];
      var r := Assign(init, ms, next);
      AssignAddsColors(init, ms, next);
      RgbsAdd(r.style, Swatch(c.rgb, Take(r.ms, c.material, r.next).number));
      assert ColorsOf(colors) == ColorsOf(init) + [c.rgb];
    }
  }

  lemma RgbsAdd(style: seq<Swatch>, s: Swatch)
    ensures Rgbs(style + [s]) == Rgbs(style) + [s.rgb]
  {
  }

  /** A part adds to the style the colours that it did not have, in the order of the controls. */
  lemma StyleGrowsInOrder(style: seq<Swatch>, next: nat, colors: seq<Color>, ms: seq<Material>)
    ensures var e := ExportPart(style, next, colors, ms);
            && |e.style| >= |style| && e.style[..|style|] == style
            && Rgbs(e.style[|style|..]) == Fresh(style, colors)
  {
    var (kept, painted) := Reuse(style, colors, ms);
    ReuseKeepsFresh(style, colors, ms);
    AssignAddsColors(kept, painted, next);
    assert (style + Assign(kept, painted, next).style)[|style|..] == Assign(kept, painted, next).style;
  }

  // ---------------------------------------------------------------- what a part is exported as

  ghost predicate NamesDiffer(ms: seq<Material>) {
    forall i, j | 0 <= i < j < |ms| :: ms[i].name != ms[j].name
  }

  ghost predicate SameNames(a: seq<Material>, b: seq<Material>) {
    |a| == |b| && forall i | 0 <= i < |a| :: a[i].name == b[i].name
  }

  /** The style is numbered from 0 in its order. */
  ghost predicate Numbered(style: seq<Swatch>, next: nat) {
    |style| == next && forall k | 0 <= k < next :: style[k].number == Digits(k)
  }

  /** The style gives a number this colour. */
  ghost predicate Gives(style: seq<Swatch>, number: string, rgb: Rgb) {
    exists k :: 0 <= k < |style| && style[k] == Swatch(rgb, number)
  }

  lemma {:induction false} KnownGives(style: seq<Swatch>, rgb: Rgb)
    ensures match Known(style, rgb)
            case Some(number) => Gives(style, number, rgb)
            case None => forall k | 0 <= k < |style| :: style[k].rgb != rgb
  {
    if style != [] && style[0].rgb != rgb {
      KnownGives(style[1..], rgb);
      if Known(style, rgb).Some? {
        var k :| 0 <= k < |style[1..]| && style[1..][k] == Swatch(rgb, Known(style, rgb).value);
        assert style[k + 1] == Swatch(rgb, Known(style, rgb).value);
      }
    } else if style != [] {
      assert style[0] == Swatch(rgb, style[0].number);
    }
  }

  /** One of the first `n` colours, and new to the style. */
  ghost predicate IsNew(style: seq<Swatch>, colors: seq<Color>, n: nat, c: Color) {
    Known(style, c.rgb) == None && exists i :: 0 <= i < n && i < |colors| && colors[i] == c
  }

  ghost predicate HasName(ms: seq<Material>, name: string) {
    exists i :: 0 <= i < |ms| && ms[i].name == name
  }

  /** What the filter leaves: known colours painted, the others kept. */
  ghost predicate Reused(style: seq<Swatch>, colors: seq<Color>, ms: seq<Material>, n: nat, kept: seq<Color>,
                         painted: seq<Material>)
    requires n <= |colors| <= |ms|
  {
    && SameNames(painted, ms)
    && (forall i | 0 <= i < n && Known(style, colors[i].rgb).Some? ::
          painted[i].color == Known(style, colors[i].rgb).value)
    && (forall i | 0 <= i < n && Known(style, colors[i].rgb) == None :: colors[i] in kept)
    && (forall t | 0 <= t < |kept| :: IsNew(style, colors, n, kept[t]))
    && (forall s, t | 0 <= s < t < |kept| :: kept[s].material != kept[t].material)
  }

  lemma {:induction false} ReuseIs(style: seq<Swatch>, colors: seq<Color>, ms: seq<Material>, n: nat)
    requires OneEach(colors, ms) && NamesDiffer(ms) && n <= |colors|
    ensures var (kept, painted) := Reuse(style, colors[..n], ms); Reused(style, colors, ms, n, kept, painted)
  {
    if n > 0 {
      ReuseIs(style, colors, ms, n - 1);
      assert colors[..n][..n - 1] == colors[..n - 1];
      var (kept, painted) := Reuse(style, colors[..n - 1], ms);
      ReuseStep(style, colors, ms, n, kept, painted);
    }
  }

  lemma ReuseStep(style: seq<Swatch>, colors: seq<Color>, ms: seq<Material>, n: nat, kept: seq<Color>,
                  painted: seq<Material>)
    requires OneEach(colors, ms) && NamesDiffer(ms) && 0 < n <= |colors|
             && Reused(style, colors, ms, n - 1, kept, painted)
    ensures var c := colors[n - 1];
            match Known(style, c.rgb)
            case Some(number) => Reused(style, colors, ms, n, kept, Paint(painted, c.material, number))
            case None => Reused(style, colors, ms, n, kept + [c], painted)
  {
    var c := colors[n - 1];
    assert c.material == ms[n - 1].name;
    forall t | 0 <= t < |kept| ensures IsNew(style, colors, n, kept[t]) && kept[t].material != c.material {
      assert IsNew(style, colors, n - 1, kept[t]);
      var i :| 0 <= i < n - 1 && i < |colors| && colors[i] == kept[t];
      assert ms[i].name != ms[n - 1].name;
    }
    if Known(style, c.rgb) == None {
      assert IsNew(style, colors, n, c);
    } else {
      var painted' := Paint(painted, c.material, Known(style, c.rgb).value);
      forall i | 0 <= i < n && Known(style, colors[i].rgb).Some?
        ensures painted'[i].color == Known(style, colors[i].rgb).value
      {
        assert i < n - 1 ==> ms[i].name != ms[n - 1].name;
      }
    }
  }

  lemma {:induction false} HasNameLast(ms: seq<Material>, name: string)
    requires ms != []
    ensures HasName(ms, name) <==> HasName(ms[..|ms| - 1], name) || ms[|ms| - 1].name == name
  {
    var n := |ms| - 1;
    if HasName(ms, name) {
      var i :| 0 <= i < |ms| && ms[i].name == name;
      assert i < n ==> ms[..n][i].name == name;
    }
    if HasName(ms[..n], name) {
      var i :| 0 <= i < n && ms[..n][i].name == name;
      assert ms[i].name == name;
    }
  }

  /** With different names, exactly the material of the name takes a number. */
  lemma {:induction false} TakeIs(ms: seq<Material>, name: string, next: nat)
    requires NamesDiffer(ms)
    ensures Take(ms, name, next)
         == Numbering(Paint(ms, name, Digits(next)), if HasName(ms, name) then Digits(next) else "-1",
                      if HasName(ms, name) then next + 1 else next)
  {
    if ms != [] {
      var n := |ms| - 1;
      TakeIs(ms[..n], name, next);
      HasNameLast(ms, name);
      PaintAdds(ms, name, Digits(next));
    } else {
      assert Paint(ms, name, Digits(next)) == [];
    }
  }

  lemma {:induction false} PaintAdds(ms: seq<Material>, name: string, number: string)
    requires ms != []
    ensures var m := ms[|ms| - 1];
            Paint(ms, name, number) == Paint(ms[..|ms| - 1], name, number)
                + [if m.name == name then m.(color := number) else m]
  {
  }

  /** The place of the colour for a material, if there is one. */
  function Place(kept: seq<Color>, name: string): (t: Option<nat>)
    ensures t.Some? ==> t.value < |kept| && kept[t.value].material == name
    ensures t == None ==> forall i | 0 <= i < |kept| :: kept[i].material != name
  {
    if kept == [] then None
    else if kept[|kept| - 1].material == name then Some(|kept| - 1)
    else Place(kept[..|kept| - 1], name)
  }

  function Repainted(m: Material, kept: seq<Color>, next: nat): Material {
    match Place(kept, m.name)
    case None => m
    case Some(t) => m.(color := Digits(next + t))
  }

  /** What the map leaves: the kept colours numbered in their order, their materials painted. */
  ghost predicate Assigned(kept: seq<Color>, ms: seq<Material>, next: nat, r: Export) {
    && |r.ms| == |ms| && (forall i | 0 <= i < |ms| :: r.ms[i] == Repainted(ms[i], kept, next))
    && |r.style| == |kept| && r.next == next + |kept|
    && (forall t | 0 <= t < |kept| :: r.style[t] == Swatch(kept[t].rgb, Digits(next + t)))
  }

  ghost predicate Names(kept: seq<Color>, ms: seq<Material>) {
    && (forall t | 0 <= t < |kept| :: HasName(ms, kept[t].material))
    && (forall s, t | 0 <= s < t < |kept| :: kept[s].material != kept[t].material)
  }

  lemma {:induction false} AssignIs(kept: seq<Color>, ms: seq<Material>, next: nat)
    requires NamesDiffer(ms) && Names(kept, ms)
    ensures Assigned(kept, ms, next, Assign(kept, ms, next))
    decreases |kept|
  {
    if kept != [] {
      var n := |kept| - 1;
      assert forall t | 0 <= t < n :: kept[..n][t] == kept[t];
      AssignIs(kept[..n], ms, next);
      AssignStep(kept, ms, next, Assign(kept[..n], ms, next));
    }
  }

  lemma SameNamesHave(a: seq<Material>, b: seq<Material>, name: string)
    requires SameNames(a, b) && HasName(a, name)
    ensures HasName(b, name)
  {
    var i :| 0 <= i < |a| && a[i].name == name;
    assert b[i].name == name;
  }

  lemma AssignStep(kept: seq<Color>, ms: seq<Material>, next: nat, r: Export)
    requires NamesDiffer(ms) && Names(kept, ms) && kept != [] && Assigned(kept[..|kept| - 1], ms, next, r)
    ensures var c := kept[|kept| - 1];
            var taken := Take(r.ms, c.material, r.next);
            Assigned(kept, ms, next, Export(r.style + [Swatch(c.rgb, taken.number)], taken.ms, taken.next))
  {
    var n := |kept| - 1;
    var c := kept[n];
    assert NamesDiffer(r.ms);
    SameNamesHave(ms, r.ms, c.material);
    TakeIs(r.ms, c.material, r.next);
    AssignedOneMore(kept, ms, next, r);
  }

  lemma AssignedOneMore(kept: seq<Color>, ms: seq<Material>, next: nat, r: Export)
    requires kept != [] && Assigned(kept[..|kept| - 1], ms, next, r)
    ensures var c := kept[|kept| - 1];
            Assigned(kept, ms, next, Export(r.style + [Swatch(c.rgb, Digits(r.next))],
                                            Paint(r.ms, c.material, Digits(r.next)), r.next + 1))
  {
    var n := |kept| - 1;
    forall i | 0 <= i < |ms| ensures Paint(r.ms, kept[n].material, Digits(r.next))[i] == Repainted(ms[i], kept, next) {
      assert r.ms[i] == Repainted(ms[i], kept[..n], next);
      RepaintStep(ms[i], kept, next);
    }
    assert forall t | 0 <= t < n :: kept[..n][t] == kept[t];
  }

  lemma RepaintStep(m: Material, kept: seq<Color>, next: nat)
    requires kept != []
    ensures var n := |kept| - 1;
            var before := Repainted(m, kept[..n], next);
            Repainted(m, kept, next)
            == if m.name == kept[n].material then before.(color := Digits(next + n)) else before
  {
  }

  /** Every material is exported with a number that the style gives the colour chosen for it. */
  ghost predicate Shown(style: seq<Swatch>, colors: seq<Color>, ms: seq<Material>) {
    |colors| == |ms| && forall i | 0 <= i < |ms| :: Gives(style, ms[i].color, colors[i].rgb)
  }

  lemma GivesMore(style: seq<Swatch>, more: seq<Swatch>, number: string, rgb: Rgb)
    requires Gives(style, number, rgb) && style <= more
    ensures Gives(more, number, rgb)
  {
    var k :| 0 <= k < |style| && style[k] == Swatch(rgb, number);
    assert more[k] == Swatch(rgb, number);
  }

  lemma KeptHaveNames(style: seq<Swatch>, colors: seq<Color>, ms: seq<Material>, kept: seq<Color>,
                      painted: seq<Material>)
    requires OneEach(colors, ms) && Reused(style, colors, ms, |colors|, kept, painted)
    ensures Names(kept, painted)
  {
    forall t | 0 <= t < |kept| ensures HasName(painted, kept[t].material) {
      assert IsNew(style, colors, |colors|, kept[t]);
      var i :| 0 <= i < |colors| && colors[i] == kept[t];
      assert painted[i].name == kept[t].material;
    }
  }

  lemma NumberedOn(style: seq<Swatch>, next: nat, kept: seq<Color>, painted: seq<Material>, a: Export)
    requires Numbered(style, next) && Assigned(kept, painted, next, a)
    ensures Numbered(style + a.style, a.next)
  {
    var all := style + a.style;
    forall k | 0 <= k < a.next ensures all[k].number == Digits(k) {
      if k >= next {
        assert all[k] == a.style[k - next] == Swatch(kept[k - next].rgb, Digits(next + (k - next)));
      }
    }
  }

  /** The export of one part: the style goes on being numbered from 0, and gives every material the
      colour chosen for it. */
  lemma PartIsShown(style: seq<Swatch>, next: nat, colors: seq<Color>, ms: seq<Material>)
    requires OneEach(colors, ms) && NamesDiffer(ms) && Numbered(style, next)
    ensures var r := ExportPart(style, next, colors, ms);
            style <= r.style && Numbered(r.style, r.next) && SameNames(r.ms, ms) && Shown(r.style, colors, r.ms)
  {
    assert colors[..|colors|] == colors;
    ReuseIs(style, colors, ms, |colors|);
    var (kept, painted) := Reuse(style, colors, ms);
    ReusedIsShown(style, next, colors, ms, kept, painted);
  }

  lemma ReusedIsShown(style: seq<Swatch>, next: nat, colors: seq<Color>, ms: seq<Material>, kept: seq<Color>,
                      painted: seq<Material>)
    requires OneEach(colors, ms) && NamesDiffer(ms) && Numbered(style, next)
    requires Reused(style, colors, ms, |colors|, kept, painted)
    ensures var a := Assign(kept, painted, next);
            Numbered(style + a.style, a.next) && SameNames(a.ms, ms) && Shown(style + a.style, colors, a.ms)
  {
    KeptHaveNames(style, colors, ms, kept, painted);
    AssignIs(kept, painted, next);
    var a := Assign(kept, painted, next);
    NumberedOn(style, next, kept, painted, a);
    forall i | 0 <= i < |ms| ensures Gives(style + a.style, a.ms[i].color, colors[i].rgb) {
      MaterialIsShown(style, next, colors, ms, kept, painted, a, i);
    }
  }

  lemma MaterialIsShown(style: seq<Swatch>, next: nat, colors: seq<Color>, ms: seq<Material>,
                        kept: seq<Color>, painted: seq<Material>, a: Export, i: nat)
    requires OneEach(colors, ms) && NamesDiffer(ms) && Numbered(style, next) && i < |ms|
    requires Reused(style, colors, ms, |colors|, kept, painted) && Assigned(kept, painted, next, a)
    ensures Gives(style + a.style, a.ms[i].color, colors[i].rgb)
  {
    var all := style + a.style;
    KnownGives(style, colors[i].rgb);
    if Known(style, colors[i].rgb).Some? {
      forall t | 0 <= t < |kept| ensures painted[i].name != kept[t].material {
        assert IsNew(style, colors, |colors|, kept[t]);
        var j :| 0 <= j < |colors| && colors[j] == kept[t];
        assert i != j;
      }
      assert Place(kept, painted[i].name) == None;
      GivesMore(style, all, a.ms[i].color, colors[i].rgb);
    } else {
      assert colors[i] in kept;
      var t :| 0 <= t < |kept| && kept[t] == colors[i];
      assert painted[i].name == kept[t].material;
      assert Place(kept, painted[i].name) == Some(t);
      assert all[next + t] == a.style[t] == Swatch(colors[i].rgb, a.ms[i].color);
    }
  }

  // ---------------------------------------------------------------- the components of a model

  function MeshParts(meshes: seq<Mesh>): seq<Part> {
    if meshes == [] then [] else MeshParts(meshes[..|meshes| - 1]) + meshes[|meshes| - 1].parts
  }

  /** All parts, in the order of their slots and meshes. */
  function PartsOf(slots: seq<Slot>): seq<Part> {
    if slots == [] then [] else PartsOf(slots[..|slots| - 1]) + MeshParts(slots[|slots| - 1].meshes)
  }

  function NewComponent(style: seq<Swatch>, part: Part): Component {
    Component(false, part, Controls(style, part.materials))
  }

  /** One component for each part, in order. */
  ghost predicate MadeFor(components: seq<Component>, parts: seq<Part>) {
    |components| == |parts| && forall j | 0 <= j < |parts| :: components[j].part == parts[j]
  }

  /** The model's constructor; `style` is the default style. */
  method MakeComponents(style: seq<Swatch>, slots: seq<Slot>) returns (components: seq<Component>)
    ensures MadeFor(components, PartsOf(slots))
    ensures forall j | 0 <= j < |components| :: components[j] == NewComponent(style, components[j].part)
  {
    components := [];
    for i := 0 to |slots|
      invariant MadeFor(components, PartsOf(slots[..i]))
      invariant forall j | 0 <= j < |components| :: components[j] == NewComponent(style, components[j].part)
    {
      var made := MakeMeshes(style, slots[i].meshes);
      MadeConcat(components, made, PartsOf(slots[..i]), MeshParts(slots[i].meshes));
      components := components + made;
      assert slots[..i + 1][..i] == slots[..i];
    }
    assert slots[..|slots|] == slots;
  }

  lemma MadeConcat(a: seq<Component>, b: seq<Component>, p: seq<Part>, q: seq<Part>)
    requires MadeFor(a, p) && MadeFor(b, q)
    ensures MadeFor(a + b, p + q)
  {
  }

  /** The loop over the meshes of a slot. */
  method MakeMeshes(style: seq<Swatch>, meshes: seq<Mesh>) returns (components: seq<Component>)
    ensures MadeFor(components, MeshParts(meshes))
    ensures forall j | 0 <= j < |components| :: components[j] == NewComponent(style, components[j].part)
  {
    components := [];
    for k := 0 to |meshes|
      invariant MadeFor(components, MeshParts(meshes[..k]))
      invariant forall j | 0 <= j < |components| :: components[j] == NewComponent(style, components[j].part)
    {
      var made := MakeParts(style, meshes[k].parts);
      MadeConcat(components, made, MeshParts(meshes[..k]), meshes[k].parts);
      components := components + made;
      assert meshes[..k + 1][..k] == meshes[..k];
    }
    assert meshes[..|meshes|] == meshes;
  }

  /** The innermost loop of the constructor. */
  method MakeParts(style: seq<Swatch>, parts: seq<Part>) returns (components: seq<Component>)
    ensures MadeFor(components, parts)
    ensures forall j | 0 <= j < |components| :: components[j] == NewComponent(style, components[j].part)
  {
    components := [];
    for i := 0 to |parts|
      invariant MadeFor(components, parts[..i])
      invariant forall j | 0 <= j < |components| :: components[j] == NewComponent(style, components[j].part)
    {
      var colors := MakeControls(style, parts[i].materials);
      components := components + [Component(false, parts[i], colors)];
    }
    assert parts[..|parts|] == parts;
  }

  // ---------------------------------------------------------------- exporting the parts

  /** The first component that is on and was made for an equal part. */
  function ComponentFor(components: seq<Component>, part: Part): Option<Component> {
    if components == [] then None
    else if components[0].on && components[0].part == part then Some(components[0])
    else ComponentFor(components[1..], part)
  }

  datatype Exported<T> = Exported(style: seq<Swatch>, next: nat, items: seq<T>)

  function ExportParts(components: seq<Component>, parts: seq<Part>, style: seq<Swatch>, next: nat): Exported<Part> {
    if parts == [] then Exported(style, next, [])
    else
      var before := ExportParts(components, parts[..|parts| - 1], style, next);
      var part := parts[|parts| - 1];
      match ComponentFor(components, part)
      case None => before
      case Some(c) =>
        var r := ExportPart(before.style, before.next, c.colors, part.materials);
        Exported(r.style, r.next, before.items + [part.(materials := r.ms)])
  }

  /** Every component has one control for each material of its part, and the names are different. */
  ghost predicate IsModel(components: seq<Component>) {
    forall i | 0 <= i < |components| ::
      OneEach(components[i].colors, components[i].part.materials) && NamesDiffer(components[i].part.materials)
  }

  lemma {:induction false} ComponentIs(components: seq<Component>, part: Part)
    ensures var c := ComponentFor(components, part);
            if c.Some? then c.value in components && c.value.on && c.value.part == part
            else forall i | 0 <= i < |components| && components[i].on :: components[i].part != part
  {
    if components != [] && !(components[0].on && components[0].part == part) {
      var rest := components[1..];
      ComponentIs(rest, part);
      forall i | 0 <= i < |components| && components[i].on && ComponentFor(rest, part) == None
        ensures components[i].part != part
      {
        assert i > 0 ==> rest[i - 1] == components[i];
      }
    }
  }

  /** The component that each exported part is taken from. */
  function Matched(components: seq<Component>, parts: seq<Part>): seq<Component> {
    if parts == [] then []
    else
      var c := ComponentFor(components, parts[|parts| - 1]);
      Matched(components, parts[..|parts| - 1]) + (if c.Some? then [c.value] else [])
  }

  /** The part as it looks in the editor: the same materials, in the colours of the component. */
  ghost predicate ShownAs(style: seq<Swatch>, part: Part, c: Component) {
    && part.name == c.part.name && SameNames(part.materials, c.part.materials)
    && Shown(style, c.colors, part.materials)
  }

  /** The parts are those of the components, one by one. */
  ghost predicate AllShown(style: seq<Swatch>, parts: seq<Part>, cs: seq<Component>) {
    |parts| == |cs| && forall k | 0 <= k < |cs| :: ShownAs(style, parts[k], cs[k])
  }

  lemma ShownMore(style: seq<Swatch>, more: seq<Swatch>, parts: seq<Part>, cs: seq<Component>)
    requires AllShown(style, parts, cs) && style <= more
    ensures AllShown(more, parts, cs)
  {
    forall k | 0 <= k < |cs| ensures ShownAs(more, parts[k], cs[k]) {
      var ms := parts[k].materials;
      assert ShownAs(style, parts[k], cs[k]);
      forall i | 0 <= i < |ms| ensures Gives(more, ms[i].color, cs[k].colors[i].rgb) {
        GivesMore(style, more, ms[i].color, cs[k].colors[i].rgb);
      }
    }
  }

  /** Renumbering keeps the meaning of the palette: the exported style is numbered 0 to n-1, and looking
      up the new number of any exported material gives the colour of the component that was matched. */
  lemma {:induction false} ExportKeepsColors(components: seq<Component>, parts: seq<Part>)
    requires IsModel(components)
    ensures var e := ExportParts(components, parts, [], 0);
            Numbered(e.style, e.next) && AllShown(e.style, e.items, Matched(components, parts))
  {
    if parts != [] {
      var init, part := parts[..|parts| - 1], parts[|parts| - 1];
      var before := ExportParts(components, init, [], 0);
      ExportKeepsColors(components, init);
      ComponentIs(components, part);
      if ComponentFor(components, part).Some? {
        var c := ComponentFor(components, part).value;
        var r := ExportPart(before.style, before.next, c.colors, part.materials);
        PartIsShown(before.style, before.next, c.colors, part.materials);
        ShownMore(before.style, r.style, before.items, Matched(components, init));
      }
    }
  }

  /** No number is given twice, so a number is looked up as one colour only. */
  lemma LookupIsUnique(style: seq<Swatch>, next: nat, number: string, a: Rgb, b: Rgb)
    requires Numbered(style, next) && Gives(style, number, a) && Gives(style, number, b)
    ensures a == b
  {
    var i :| 0 <= i < |style| && style[i] == Swatch(a, number);
    var j :| 0 <= j < |style| && style[j] == Swatch(b, number);
    DigitsAreCanonical(i);
    DigitsAreCanonical(j);
  }

  // ---------------------------------------------------------------- the user's choice

  /** The components that are on, in order: what the user has chosen. */
  function Chosen(components: seq<Component>): seq<Component> {
    if components == [] then []
    else
      var last := components[|components| - 1];
      Chosen(components[..|components| - 1]) + (if last.on then [last] else [])
  }

  /** Nothing is chosen before the first click: every new component is off. */
  lemma {:induction false} NothingIsChosenAtFirst(style: seq<Swatch>, components: seq<Component>)
    requires forall j | 0 <= j < |components| :: components[j] == NewComponent(style, components[j].part)
    ensures Chosen(components) == []
  {
    if components != [] {
      NothingIsChosenAtFirst(style, components[..|components| - 1]);
    }
  }

  /** Components of equal parts are switched and coloured alike. */
  ghost predicate EqualsAlike(components: seq<Component>) {
    forall i, j | 0 <= i < |components| && 0 <= j < |components| && components[i].on ::
      components[i].part == components[j].part ==>
        components[j].on && components[j].colors == components[i].colors
  }

  /** The components are matched with their own parts. */
  ghost predicate OwnMatched(components: seq<Component>, parts: seq<Part>, j: nat)
    requires j < |components| == |parts|
  {
    ComponentFor(components, parts[j]) == if components[j].on then Some(components[j]) else None
  }

  lemma {:induction false} MatchedIsAtLeast(components: seq<Component>, parts: seq<Part>, n: nat)
    requires MadeFor(components, parts) && n <= |parts|
    ensures |Chosen(components[..n])| <= |Matched(components, parts[..n])|
  {
    if n > 0 {
      assert components[..n][..n - 1] == components[..n - 1] && parts[..n][..n - 1] == parts[..n - 1];
      MatchedIsAtLeast(components, parts, n - 1);
      ComponentIs(components, parts[n - 1]);
    }
  }

  lemma {:induction false} MatchedStep(components: seq<Component>, parts: seq<Part>, n: nat)
    requires MadeFor(components, parts) && n < |parts|
    ensures Matched(components, parts[..n + 1]) == Chosen(components[..n + 1])
       <==> Matched(components, parts[..n]) == Chosen(components[..n]) && OwnMatched(components, parts, n)
  {
    assert components[..n + 1][..n] == components[..n] && parts[..n + 1][..n] == parts[..n];
    MatchedIsAtLeast(components, parts, n);
    ComponentIs(components, parts[n]);
    var c := ComponentFor(components, parts[n]);
    var x := if c.Some? then [c.value] else [];
    var y := if components[n].on then [components[n]] else [];
    LastAlike(Matched(components, parts[..n]), x, Chosen(components[..n]), y);
    OneAlike(c, components[n]);
  }

  lemma {:induction false} MatchedIsChosenIff(components: seq<Component>, parts: seq<Part>, n: nat)
    requires MadeFor(components, parts) && n <= |parts|
    ensures Matched(components, parts[..n]) == Chosen(components[..n])
       <==> forall j | 0 <= j < n :: OwnMatched(components, parts, j)
  {
    if n > 0 {
      MatchedStep(components, parts, n - 1);
      MatchedIsChosenIff(components, parts, n - 1);
    }
  }

  lemma OneAlike(c: Option<Component>, d: Component)
    ensures (if c.Some? then [c.value] else []) == (if d.on then [d] else []) <==> c == if d.on then Some(d) else None
  {
    if c.Some? {
      assert [c.value][0] == c.value && [d][0] == d;
    }
  }

  lemma LastAlike(a: seq<Component>, x: seq<Component>, b: seq<Component>, y: seq<Component>)
    requires |b| <= |a| && |y| <= |x| <= 1
    ensures a + x == b + y <==> a == b && x == y
  {
    if a + x == b + y {
      assert |a| == |b| && |x| == |y|;
      assert a == (a + x)[..|a|] && b == (b + y)[..|b|] && x == (a + x)[|a|..] && y == (b + y)[|b|..];
    }
  }

  lemma OwnMatchedIff(components: seq<Component>, parts: seq<Part>)
    requires MadeFor(components, parts)
    ensures EqualsAlike(components) <==> forall j | 0 <= j < |parts| :: OwnMatched(components, parts, j)
  {
    if EqualsAlike(components) {
      forall j | 0 <= j < |parts| ensures OwnMatched(components, parts, j) {
        ComponentIs(components, parts[j]);
        var c := ComponentFor(components, parts[j]);
        if c.Some? {
          var i :| 0 <= i < |components| && components[i] == c.value;
        }
      }
    }
    if forall j | 0 <= j < |parts| :: OwnMatched(components, parts, j) {
      forall i, j | 0 <= i < |components| && 0 <= j < |components| && components[i].on
                    && components[i].part == components[j].part
        ensures components[j].on && components[j].colors == components[i].colors
      {
        assert OwnMatched(components, parts, i) && OwnMatched(components, parts, j);
      }
    }
  }

  lemma MatchedParts(components: seq<Component>, parts: seq<Part>)
    requires MadeFor(components, parts)
    ensures Matched(components, parts) == Chosen(components) <==> EqualsAlike(components)
  {
    MatchedIsChosenIff(components, parts, |parts|);
    assert components[..|parts|] == components && parts[..|parts|] == parts;
    OwnMatchedIff(components, parts);
  }

  lemma {:induction false} MatchedAreOn(components: seq<Component>, parts: seq<Part>)
    ensures forall k | 0 <= k < |Matched(components, parts)| ::
              Matched(components, parts)[k] in components && Matched(components, parts)[k].on
  {
    if parts != [] {
      MatchedAreOn(components, parts[..|parts| - 1]);
      ComponentIs(components, parts[|parts| - 1]);
    }
  }

  lemma {:induction false} ChosenAreOn(components: seq<Component>)
    ensures forall k | 0 <= k < |Chosen(components)| ::
              Chosen(components)[k] in components && Chosen(components)[k].on
  {
    if components != [] {
      ChosenAreOn(components[..|components| - 1]);
    }
  }

  /** If as many parts are matched as are chosen, they are the same parts. */
  lemma {:induction false} SamePartsIfAsMany(components: seq<Component>, parts: seq<Part>, n: nat)
    requires MadeFor(components, parts) && n <= |parts|
    requires |Chosen(components[..n])| == |Matched(components, parts[..n])|
    ensures forall k | 0 <= k < |Chosen(components[..n])| ::
              Matched(components, parts[..n])[k].part == Chosen(components[..n])[k].part
  {
    if n > 0 {
      assert components[..n][..n - 1] == components[..n - 1] && parts[..n][..n - 1] == parts[..n - 1];
      MatchedIsAtLeast(components, parts, n - 1);
      ComponentIs(components, parts[n - 1]);
      SamePartsIfAsMany(components, parts, n - 1);
    }
  }

  /** A part that is shown as two components of equal parts is shown in the same colours. */
  lemma ShownOnce(style: seq<Swatch>, next: nat, part: Part, a: Component, b: Component)
    requires Numbered(style, next) && ShownAs(style, part, a) && ShownAs(style, part, b)
    requires a.part == b.part && OneEach(a.colors, a.part.materials) && OneEach(b.colors, b.part.materials)
    ensures a.colors == b.colors
  {
    forall i | 0 <= i < |a.colors| ensures a.colors[i] == b.colors[i] {
      LookupIsUnique(style, next, part.materials[i].color, a.colors[i].rgb, b.colors[i].rgb);
    }
  }

  lemma ShownAreMatched(components: seq<Component>, parts: seq<Part>, style: seq<Swatch>, next: nat, items: seq<Part>)
    requires IsModel(components) && MadeFor(components, parts) && Numbered(style, next)
    requires AllShown(style, items, Matched(components, parts)) && AllShown(style, items, Chosen(components))
    ensures Matched(components, parts) == Chosen(components)
  {
    assert components[..|parts|] == components && parts[..|parts|] == parts;
    SamePartsIfAsMany(components, parts, |parts|);
    MatchedAreOn(components, parts);
    ChosenAreOn(components);
    var a, b := Matched(components, parts), Chosen(components);
    forall k | 0 <= k < |a| ensures a[k] == b[k] {
      assert a[k] in components && b[k] in components;
      assert ShownAs(style, items[k], a[k]) && ShownAs(style, items[k], b[k]);
      ShownOnce(style, next, items[k], a[k], b[k]);
    }
  }

  /** The export consists, in order, of the parts whose own component is on, each in the colours of its
      own component, exactly if components of equal parts are switched and coloured alike. */
  lemma ExportIsChosenIff(components: seq<Component>, parts: seq<Part>)
    requires IsModel(components) && MadeFor(components, parts)
    ensures var e := ExportParts(components, parts, [], 0);
            AllShown(e.style, e.items, Chosen(components)) <==> EqualsAlike(components)
  {
    var e := ExportParts(components, parts, [], 0);
    ExportKeepsColors(components, parts);
    MatchedParts(components, parts);
    if AllShown(e.style, e.items, Chosen(components)) {
      ShownAreMatched(components, parts, e.style, e.next, e.items);
    }
  }

  /** In particular if no two parts are equal. */
  lemma DifferentPartsAreChosen(components: seq<Component>, parts: seq<Part>)
    requires IsModel(components) && MadeFor(components, parts)
    requires forall i, j | 0 <= i < j < |parts| :: parts[i] != parts[j]
    ensures var e := ExportParts(components, parts, [], 0);
            Numbered(e.style, e.next) && AllShown(e.style, e.items, Chosen(components))
  {
    ExportIsChosenIff(components, parts);
    ExportKeepsColors(components, parts);
    forall i, j | 0 <= i < |components| && 0 <= j < |components| && components[i].on
                  && components[i].part == components[j].part
      ensures i == j
    {
      assert parts[i] == parts[j];
    }
  }

  /** Two equal parts, the first on and of another colour than the second: both are exported in the colour
      of the first, whether the second is on or not. */
  lemma SecondChoiceIsLost(name: string, material: Material, red: Rgb, blue: Rgb, on: bool)
    requires red != blue
    ensures var part := Part(name, [material]);
            var a := Component(true, part, [Color(material.name, red)]);
            var b := Component(on, part, [Color(material.name, blue)]);
            var e := ExportParts([a, b], [part, part], [], 0);
            && AllShown(e.style, e.items, [a, a])
            && !AllShown(e.style, e.items, Chosen([a, b]))
  {
    var part := Part(name, [material]);
    var a := Component(true, part, [Color(material.name, red)]);
    var b := Component(on, part, [Color(material.name, blue)]);
    var cs, ps := [a, b], [part, part];
    assert IsModel(cs) && MadeFor(cs, ps);
    assert ps[..1] == [part] && [part][..0] == [];
    assert Matched(cs, [part]) == [a] && Matched(cs, ps) == [a, a];
    ExportKeepsColors(cs, ps);
    ExportIsChosenIff(cs, ps);
    assert cs[0].on && cs[0].part == cs[1].part && cs[0].colors[0] != cs[1].colors[0];
  }

  /** The components that the constructor makes are a model, if each part's materials have different names
      and numbers of the style, which are different too. */
  lemma MadeIsModel(style: seq<Swatch>, components: seq<Component>)
    requires NumbersDiffer(style)
    requires forall j | 0 <= j < |components| ::
               && components[j] == NewComponent(style, components[j].part)
               && NamesDiffer(components[j].part.materials)
               && forall i | 0 <= i < |components[j].part.materials| ::
                    HasNumber(style, components[j].part.materials[i].color)
    ensures IsModel(components)
  {
    forall j | 0 <= j < |components| ensures OneEach(components[j].colors, components[j].part.materials) {
      ControlsAreOneEach(style, components[j].part.materials);
    }
  }

  lemma {:induction false} MatchingGives(style: seq<Swatch>, m: Material)
    ensures forall i | 0 <= i < |Matching(style, m)| ::
              Matching(style, m)[i].material == m.name && Gives(style, m.color, Matching(style, m)[i].rgb)
  {
    if style != [] {
      var n := |style| - 1;
      MatchingGives(style[..n], m);
      forall i | 0 <= i < |Matching(style, m)| ensures Gives(style, m.color, Matching(style, m)[i].rgb) {
        if i < |Matching(style[..n], m)| {
          GivesMore(style[..n], style, m.color, Matching(style[..n], m)[i].rgb);
        } else {
          assert style[n] == Swatch(style[n].rgb, m.color);
        }
      }
    }
  }

  lemma ShownAdd(style: seq<Swatch>, colors: seq<Color>, ms: seq<Material>, last: seq<Color>)
    requires ms != [] && Shown(style, colors, ms[..|ms| - 1])
    requires |last| == 1 && Gives(style, ms[|ms| - 1].color, last[0].rgb)
    ensures Shown(style, colors + last, ms)
  {
  }

  /** A new control is set to the colour that the default style gives its material. */
  lemma {:induction false} NewControlsShowStyle(style: seq<Swatch>, ms: seq<Material>)
    requires NumbersDiffer(style) && forall i | 0 <= i < |ms| :: HasNumber(style, ms[i].color)
    ensures Shown(style, Controls(style, ms), ms)
  {
    if ms != [] {
      var n := |ms| - 1;
      NewControlsShowStyle(style, ms[..n]);
      MatchingIsOne(style, ms[n]);
      MatchingGives(style, ms[n]);
      ShownAdd(style, Controls(style, ms[..n]), ms, Matching(style, ms[n]));
    }
  }

  /** The component has the controls that the constructor makes. */
  ghost predicate IsUnedited(style: seq<Swatch>, c: Component) {
    && c.colors == Controls(style, c.part.materials)
    && forall i | 0 <= i < |c.part.materials| :: HasNumber(style, c.part.materials[i].color)
  }

  /** The numbers of the first materials in one style give the colours of the others' in the other. */
  ghost predicate SameColors(style: seq<Swatch>, ms: seq<Material>, style': seq<Swatch>, ms': seq<Material>) {
    |ms| == |ms'| && forall i | 0 <= i < |ms| :: SameColor(style, ms[i].color, style', ms'[i].color)
  }

  ghost predicate SameColor(style: seq<Swatch>, number: string, style': seq<Swatch>, number': string) {
    exists rgb :: Gives(style, number, rgb) && Gives(style', number', rgb)
  }

  lemma ShownTwice(style: seq<Swatch>, style': seq<Swatch>, part: Part, c: Component)
    requires Shown(style, c.colors, c.part.materials) && ShownAs(style', part, c)
    ensures SameColors(style, c.part.materials, style', part.materials)
  {
    forall i | 0 <= i < |part.materials|
      ensures SameColor(style, c.part.materials[i].color, style', part.materials[i].color)
    {
      assert Gives(style, c.part.materials[i].color, c.colors[i].rgb);
    }
  }

  /** Parts that are switched on and left alone keep their colours: looked up in the exported style, the new
      numbers of an exported part give the colours that the default style gives its old numbers. */
  lemma UneditedKeepsColors(style: seq<Swatch>, components: seq<Component>, parts: seq<Part>, k: nat)
    requires NumbersDiffer(style) && IsModel(components) && MadeFor(components, parts)
    requires forall i, j | 0 <= i < j < |parts| :: parts[i] != parts[j]
    requires k < |Chosen(components)| && IsUnedited(style, Chosen(components)[k])
    ensures var e := ExportParts(components, parts, [], 0);
            |e.items| == |Chosen(components)|
            && SameColors(style, Chosen(components)[k].part.materials, e.style, e.items[k].materials)
  {
    var e, c := ExportParts(components, parts, [], 0), Chosen(components)[k];
    DifferentPartsAreChosen(components, parts);
    NewControlsShowStyle(style, c.part.materials);
    assert ShownAs(e.style, e.items[k], c);
    ShownTwice(style, e.style, e.items[k], c);
  }

  /** What a user can do to a component: switch it and move its sliders. */
  ghost predicate Edited(before: seq<Component>, after: seq<Component>) {
    |after| == |before| && forall j | 0 <= j < |before| ::
      && after[j].part == before[j].part && |after[j].colors| == |before[j].colors|
      && forall i | 0 <= i < |before[j].colors| :: after[j].colors[i].material == before[j].colors[i].material
  }

  lemma EditedIsModel(before: seq<Component>, after: seq<Component>, parts: seq<Part>)
    requires IsModel(before) && MadeFor(before, parts) && Edited(before, after)
    ensures IsModel(after) && MadeFor(after, parts)
  {
  }

  // ---------------------------------------------------------------- slots and meshes

  /** A mesh without parts is left out. */
  function ExportMeshes(components: seq<Component>, meshes: seq<Mesh>, style: seq<Swatch>, next: nat): Exported<Mesh> {
    if meshes == [] then Exported(style, next, [])
    else
      var before := ExportMeshes(components, meshes[..|meshes| - 1], style, next);
      var mesh := meshes[|meshes| - 1];
      var e := ExportParts(components, mesh.parts, before.style, before.next);
      Exported(e.style, e.next, before.items + (if e.items != [] then [Mesh(mesh.name, e.items)] else []))
  }

  /** A slot without meshes is left out. */
  function ExportSlots(components: seq<Component>, slots: seq<Slot>, style: seq<Swatch>, next: nat): Exported<Slot> {
    if slots == [] then Exported(style, next, [])
    else
      var before := ExportSlots(components, slots[..|slots| - 1], style, next);
      var slot := slots[|slots| - 1];
      var e := ExportMeshes(components, slot.meshes, before.style, before.next);
      Exported(e.style, e.next, before.items + (if e.items != [] then [Slot(slot.name, e.items)] else []))
  }

  lemma {:induction false} ExportConcat(components: seq<Component>, a: seq<Part>, b: seq<Part>, style: seq<Swatch>,
                                        next: nat)
    ensures var x := ExportParts(components, a, style, next);
            var y := ExportParts(components, b, x.style, x.next);
            ExportParts(components, a + b, style, next) == Exported(y.style, y.next, x.items + y.items)
  {
    if b == [] {
      assert a + b == a;
    } else {
      var init := b[..|b| - 1];
      assert (a + b)[..|a + b| - 1] == a + init;
      ExportConcat(components, a, init, style, next);
    }
  }

  lemma {:induction false} MeshesAreFlat(components: seq<Component>, meshes: seq<Mesh>, style: seq<Swatch>, next: nat)
    ensures var e := ExportMeshes(components, meshes, style, next);
            Exported(e.style, e.next, MeshParts(e.items)) == ExportParts(components, MeshParts(meshes), style, next)
  {
    if meshes != [] {
      var init, mesh := meshes[..|meshes| - 1], meshes[|meshes| - 1];
      MeshesAreFlat(components, init, style, next);
      ExportConcat(components, MeshParts(init), mesh.parts, style, next);
      var before := ExportMeshes(components, init, style, next);
      var e := ExportParts(components, mesh.parts, before.style, before.next);
      MeshPartsAdd(before.items, Mesh(mesh.name, e.items));
      assert MeshParts(before.items) + [] == MeshParts(before.items) && before.items + [] == before.items;
    }
  }

  lemma MeshPartsAdd(meshes: seq<Mesh>, mesh: Mesh)
    ensures MeshParts(meshes + [mesh]) == MeshParts(meshes) + mesh.parts
  {
    assert (meshes + [mesh])[..|meshes|] == meshes;
  }

  lemma PartsAdd(slots: seq<Slot>, slot: Slot)
    ensures PartsOf(slots + [slot]) == PartsOf(slots) + MeshParts(slot.meshes)
  {
    assert (slots + [slot])[..|slots|] == slots;
  }

  /** Grouping plays no part in the colours: taken slot by slot and mesh by mesh, the export is that of
      the parts in their order. */
  lemma {:induction false} SlotsAreFlat(components: seq<Component>, slots: seq<Slot>, style: seq<Swatch>, next: nat)
    ensures var e := ExportSlots(components, slots, style, next);
            Exported(e.style, e.next, PartsOf(e.items)) == ExportParts(components, PartsOf(slots), style, next)
  {
    if slots != [] {
      var init, slot := slots[..|slots| - 1], slots[|slots| - 1];
      SlotsAreFlat(components, init, style, next);
      ExportConcat(components, PartsOf(init), MeshParts(slot.meshes), style, next);
      var before := ExportSlots(components, init, style, next);
      MeshesAreFlat(components, slot.meshes, before.style, before.next);
      var e := ExportMeshes(components, slot.meshes, before.style, before.next);
      PartsAdd(before.items, Slot(slot.name, e.items));
      assert PartsOf(before.items) + [] == PartsOf(before.items) && before.items + [] == before.items;
    }
  }

  // ---------------------------------------------------------------- what is left of the groups

  /** The parts that are exported, before they are renumbered. */
  function KeptParts(components: seq<Component>, parts: seq<Part>): seq<Part> {
    if parts == [] then []
    else
      var part := parts[|parts| - 1];
      KeptParts(components, parts[..|parts| - 1]) + (if ComponentFor(components, part).Some? then [part] else [])
  }

  function KeptMeshes(components: seq<Component>, meshes: seq<Mesh>): seq<Mesh> {
    if meshes == [] then []
    else
      var mesh := meshes[|meshes| - 1];
      var parts := KeptParts(components, mesh.parts);
      KeptMeshes(components, meshes[..|meshes| - 1]) + (if parts != [] then [Mesh(mesh.name, parts)] else [])
  }

  /** The slots with the parts that a component that is on was made for, or an equal one; without the
      meshes and slots that are left empty. */
  function KeptSlots(components: seq<Component>, slots: seq<Slot>): seq<Slot> {
    if slots == [] then []
    else
      var slot := slots[|slots| - 1];
      var meshes := KeptMeshes(components, slot.meshes);
      KeptSlots(components, slots[..|slots| - 1]) + (if meshes != [] then [Slot(slot.name, meshes)] else [])
  }

  /** Equal but for the numbers of the colours. */
  ghost predicate SameParts(a: seq<Part>, b: seq<Part>) {
    |a| == |b| && forall i | 0 <= i < |a| :: a[i].name == b[i].name && SameNames(a[i].materials, b[i].materials)
  }

  ghost predicate SameMeshes(a: seq<Mesh>, b: seq<Mesh>) {
    |a| == |b| && forall i | 0 <= i < |a| :: a[i].name == b[i].name && SameParts(a[i].parts, b[i].parts)
  }

  ghost predicate SameSlots(a: seq<Slot>, b: seq<Slot>) {
    |a| == |b| && forall i | 0 <= i < |a| :: a[i].name == b[i].name && SameMeshes(a[i].meshes, b[i].meshes)
  }

  lemma {:induction false} TakeKeepsNames(ms: seq<Material>, name: string, next: nat)
    ensures SameNames(Take(ms, name, next).ms, ms)
  {
    if ms != [] {
      TakeKeepsNames(ms[..|ms| - 1], name, next);
    }
  }

  lemma {:induction false} ReuseKeepsNames(style: seq<Swatch>, colors: seq<Color>, ms: seq<Material>)
    ensures SameNames(Reuse(style, colors, ms).1, ms)
  {
    if colors != [] {
      ReuseKeepsNames(style, colors[..|colors| - 1], ms);
    }
  }

  lemma {:induction false} AssignKeepsNames(colors: seq<Color>, ms: seq<Material>, next: nat)
    ensures SameNames(Assign(colors, ms, next).ms, ms)
  {
    if colors != [] {
      var r := Assign(colors[..|colors| - 1], ms, next);
      AssignKeepsNames(colors[..|colors| - 1], ms, next);
      TakeKeepsNames(r.ms, colors[|colors| - 1].material, r.next);
    }
  }

  lemma {:induction false} PartsAreKept(components: seq<Component>, parts: seq<Part>, style: seq<Swatch>, next: nat)
    ensures SameParts(ExportParts(components, parts, style, next).items, KeptParts(components, parts))
  {
    if parts != [] {
      var init, part := parts[..|parts| - 1], parts[|parts| - 1];
      PartsAreKept(components, init, style, next);
      var c := ComponentFor(components, part);
      if c.Some? {
        var before := ExportParts(components, init, style, next);
        var (kept, painted) := Reuse(before.style, c.value.colors, part.materials);
        ReuseKeepsNames(before.style, c.value.colors, part.materials);
        AssignKeepsNames(kept, painted, before.next);
      }
    }
  }

  lemma {:induction false} MeshesAreKept(components: seq<Component>, meshes: seq<Mesh>, style: seq<Swatch>, next: nat)
    ensures SameMeshes(ExportMeshes(components, meshes, style, next).items, KeptMeshes(components, meshes))
  {
    if meshes != [] {
      var before := ExportMeshes(components, meshes[..|meshes| - 1], style, next);
      MeshesAreKept(components, meshes[..|meshes| - 1], style, next);
      PartsAreKept(components, meshes[|meshes| - 1].parts, before.style, before.next);
    }
  }

  /** The export keeps the names and the order of slots, meshes, parts and materials, and has exactly the
      groups that are left. */
  lemma {:induction false} SlotsAreKept(components: seq<Component>, slots: seq<Slot>, style: seq<Swatch>, next: nat)
    ensures SameSlots(ExportSlots(components, slots, style, next).items, KeptSlots(components, slots))
  {
    if slots != [] {
      var before := ExportSlots(components, slots[..|slots| - 1], style, next);
      SlotsAreKept(components, slots[..|slots| - 1], style, next);
      MeshesAreKept(components, slots[|slots| - 1].meshes, before.style, before.next);
    }
  }

  // ---------------------------------------------------------------- the methods

  class Exporter {
    var style: seq<Swatch>
    var nextNumber: nat

    constructor ()
      ensures style == [] && nextNumber == 0
    {
      style, nextNumber := [], 0;
    }

    /** The loop over the materials for a colour that the style has. */
    method PaintMaterials(ms: array<Material>, name: string, number: string)
      modifies ms
      ensures ms[..] == Paint(old(ms[..]), name, number)
    {
      ghost var was := ms[..];
      for i := 0 to ms.Length
        invariant forall k | 0 <= k < ms.Length :: ms[k] == if k < i then Paint(was, name, number)[k] else was[k]
      {
        if ms[i].name == name {
          ms[i] := ms[i].(color := number);
        }
      }
    }

    /** The test of the filter over the style. */
    method IsNewColor(c: Color, ms: array<Material>) returns (isNew: bool)
      modifies ms
      ensures isNew <==> Known(style, c.rgb) == None
      ensures ms[..] == if isNew then old(ms[..]) else Paint(old(ms[..]), c.material, Known(style, c.rgb).value)
    {
      for i := 0 to |style|
        invariant ms[..] == old(ms[..]) && Known(style[i..], c.rgb) == Known(style, c.rgb)
      {
        assert style[i..][0] == style[i] && style[i..][1..] == style[i + 1..];
        if style[i].rgb == c.rgb {
          PaintMaterials(ms, c.material, style[i].number);
          return false;
        }
      }
      return true;
    }

    method Filter(colors: seq<Color>, ms: array<Material>) returns (kept: seq<Color>)
      modifies ms
      ensures (kept, ms[..]) == Reuse(style, colors, old(ms[..]))
    {
      kept := [];
      for i := 0 to |colors|
        invariant (kept, ms[..]) == Reuse(style, colors[..i], old(ms[..]))
      {
        assert colors[..i + 1][..i] == colors[..i];
        var isNew := IsNewColor(colors[i], ms);
        if isNew {
          kept := kept + [colors[i]];
        }
      }
      assert colors[..|colors|] == colors;
    }

    /** The loop over the materials for a new colour. */
    method NumberMaterials(ms: array<Material>, name: string) returns (number: string)
      modifies ms, this`nextNumber
      ensures Numbering(ms[..], number, nextNumber) == Take(old(ms[..]), name, old(nextNumber))
    {
      number := "-1";
      ghost var was, done := ms[..], ms[..0];
      for i := 0 to ms.Length
        invariant Numbering(done, number, nextNumber) == Take(was[..i], name, old(nextNumber)) && |done| == i
        invariant forall k | 0 <= k < ms.Length :: ms[k] == if k < i then done[k] else was[k]
      {
        assert was[..i + 1][..i] == was[..i];
        if ms[i].name == name {
          ms[i] := ms[i].(color := Digits(nextNumber));
          number := Digits(nextNumber);
          nextNumber := nextNumber + 1;
        }
        done := done + [ms[i]];
      }
      assert ms[..] == done && was[..ms.Length] == was;
    }

    method NumberColors(colors: seq<Color>, ms: array<Material>) returns (included: seq<Swatch>)
      modifies ms, this`nextNumber
      ensures Export(included, ms[..], nextNumber) == Assign(colors, old(ms[..]), old(nextNumber))
    {
      included := [];
      for i := 0 to |colors|
        invariant Export(included, ms[..], nextNumber) == Assign(colors[..i], old(ms[..]), old(nextNumber))
      {
        assert colors[..i + 1][..i] == colors[..i];
        var number := NumberMaterials(ms, colors[i].material);
        included := included + [Swatch(colors[i].rgb, number)];
      }
      assert colors[..|colors|] == colors;
    }

    /** What `data` does for one part that is on. */
    method AddPart(colors: seq<Color>, ms: array<Material>)
      modifies this, ms
      ensures Export(style, ms[..], nextNumber) == ExportPart(old(style), old(nextNumber), colors, old(ms[..]))
    {
      var kept := Filter(colors, ms);
      var included := NumberColors(kept, ms);
      style := style + included;
    }

    /** The innermost loop of `data`: the parts of a mesh, each cloned before it is painted. */
    method AddParts(components: seq<Component>, parts: seq<Part>) returns (partArray: seq<Part>)
      modifies this
      ensures Exported(style, nextNumber, partArray) == ExportParts(components, parts, old(style), old(nextNumber))
    {
      partArray := [];
      for i := 0 to |parts|
        invariant Exported(style, nextNumber, partArray)
               == ExportParts(components, parts[..i], old(style), old(nextNumber))
      {
        assert parts[..i + 1][..i] == parts[..i];
        var found := ComponentFor(components, parts[i]);
        if found.Some? {
          var clone := parts[i].materials;
          var ms := new Material[|clone|](k requires 0 <= k < |clone| => clone[k]);
          assert ms[..] == clone;
          AddPart(found.value.colors, ms);
          partArray := partArray + [parts[i].(materials := ms[..])];
        }
      }
      assert parts[..|parts|] == parts;
    }

    method AddMeshes(components: seq<Component>, meshes: seq<Mesh>) returns (meshArray: seq<Mesh>)
      modifies this
      ensures Exported(style, nextNumber, meshArray) == ExportMeshes(components, meshes, old(style), old(nextNumber))
    {
      meshArray := [];
      for i := 0 to |meshes|
        invariant Exported(style, nextNumber, meshArray)
               == ExportMeshes(components, meshes[..i], old(style), old(nextNumber))
      {
        assert meshes[..i + 1][..i] == meshes[..i];
        var partArray := AddParts(components, meshes[i].parts);
        if |partArray| > 0 {
          meshArray := meshArray + [Mesh(meshes[i].name, partArray)];
        }
      }
      assert meshes[..|meshes|] == meshes;
    }

    /** `data` */
    method Data(components: seq<Component>, slots: seq<Slot>) returns (slotArray: seq<Slot>)
      requires style == [] && nextNumber == 0
      modifies this
      ensures Exported(style, nextNumber, slotArray) == ExportSlots(components, slots, [], 0)
      ensures SameSlots(slotArray, KeptSlots(components, slots))
      ensures IsModel(components) && MadeFor(components, PartsOf(slots)) ==>
                && Numbered(style, nextNumber)
                && (AllShown(style, PartsOf(slotArray), Chosen(components)) <==> EqualsAlike(components))
    {
      slotArray := [];
      for i := 0 to |slots|
        invariant Exported(style, nextNumber, slotArray) == ExportSlots(components, slots[..i], [], 0)
      {
        assert slots[..i + 1][..i] == slots[..i];
        var meshArray := AddMeshes(components, slots[i].meshes);
        if |meshArray| > 0 {
          slotArray := slotArray + [Slot(slots[i].name, meshArray)];
        }
      }
      assert slots[..|slots|] == slots;
      SlotsAreFlat(components, slots, [], 0);
      SlotsAreKept(components, slots, [], 0);
      if IsModel(components) && MadeFor(components, PartsOf(slots)) {
        ExportIsChosenIff(components, PartsOf(slots));
        ExportKeepsColors(components, PartsOf(slots));
      }
    }
  }
}
