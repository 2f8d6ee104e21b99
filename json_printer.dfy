/**
 * JsonPrinter: serialises a view hierarchy as nested object literals,
 *   { <properties> [<background>] [<content>], 'children':[<child>,<child>,...]}
 * The Handler/FutureTask hand-off to the UI thread is replaced by direct calls whose
 * outcome is a Capture: a fragment (possibly absent) or a failure of the wait.
 */
module JsonPrinter {
  import opened Wrappers
  import opened Text
  import opened Canvas
  import opened Views

  const PHONE_WINDOW := "PhoneWindow"
  const BASE64_IDENTIFIER := "data:image/png;base64,"

  // ---------------------------------------------------------------------------
  // Resource id names

  /**
   * `id & 0xff000000` compared against 0x7f000000 and 0x01000000: the mask keeps the
   * top byte of the id's 32 bits, so the switch is on that byte.
   */
  function TopByte(id: int32): (b: nat)
    ensures b < 0x100
  {
    Unsigned(id) / 0x100_0000
  }

  /** The package part: fixed for application and framework ids, else looked up. */
  function PackageName(id: int32, res: Resources): Option<string> {
    if TopByte(id) == 0x7f then Some("app")
    else if TopByte(id) == 0x01 then Some("android")
    else if id in res.packageNames then Some(res.packageNames[id])
    else None
  }

  /** `[@pkg:type/entry]`. */
  function IdText(pkg: string, typeName: string, entryName: string): string {
    "[@" + pkg + ":" + typeName + "/" + entryName + "]"
  }

  /** Every lookup the id name needs succeeds. */
  ghost predicate IdResolves(id: int32, res: Option<Resources>) {
    id != NO_ID && id != 0 && res.Some?
    && PackageName(id, res.value).Some?
    && id in res.value.typeNames && id in res.value.entryNames
  }

  /** The 'id' text getProperties builds: empty unless every lookup succeeds. */
  function IdName(id: int32, res: Option<Resources>): (r: string)
    ensures r == "" <==> !IdResolves(id, res)
    ensures r != "" ==> r == IdText(PackageName(id, res.value).value,
                                     res.value.typeNames[id], res.value.entryNames[id])
    ensures r != "" && TopByte(id) == 0x7f ==> r[..6] == "[@app:"
    ensures r != "" && TopByte(id) == 0x01 ==> r[..10] == "[@android:"
  {
    if id == NO_ID then ""
    else if id == 0 || res.None? then ""
    else
      var pkg := PackageName(id, res.value);
      if pkg.None? || id !in res.value.typeNames || id !in res.value.entryNames then ""
      else IdText(pkg.value, res.value.typeNames[id], res.value.entryNames[id])
  }

  datatype IdParts = IdParts(pkg: string, typeName: string, entryName: string)

  /** Reads `[@pkg:type/entry]` back, splitting at the first ':' and the next '/'. */
  function ParseIdText(s: string): Option<IdParts> {
    if |s| < 3 || s[..2] != "[@" || s[|s| - 1] != ']' then None
    else SplitPackage(s[2..|s| - 1])
  }

  function SplitPackage(inner: string): Option<IdParts> {
    var colon := IndexOf(inner, ':');
    if colon == -1 then None
    else
      var rest := SplitType(inner[colon + 1..]);
      if rest.None? then None else Some(IdParts(inner[..colon], rest.value.0, rest.value.1))
  }

  function SplitType(rest: string): Option<(string, string)> {
    var slash := IndexOf(rest, '/');
    if slash == -1 then None else Some((rest[..slash], rest[slash + 1..]))
  }

  /** Package and type names carry no ':' or '/', so the id text loses nothing. */
  lemma IdTextRoundTrip(pkg: string, typeName: string, entryName: string)
    requires ':' !in pkg && '/' !in typeName
    ensures ParseIdText(IdText(pkg, typeName, entryName)) == Some(IdParts(pkg, typeName, entryName))
  {
    var middle := pkg + [':'] + (typeName + ['/'] + entryName);
    IdTextWraps(pkg, typeName, entryName);
    Unwrap(middle);
    SplitPackageOf(pkg, typeName, entryName);
  }

  lemma IdTextWraps(pkg: string, typeName: string, entryName: string)
    ensures IdText(pkg, typeName, entryName) == "[@" + (pkg + [':'] + (typeName + ['/'] + entryName)) + "]"
  {}

  lemma SplitPackageOf(pkg: string, typeName: string, entryName: string)
    requires ':' !in pkg && '/' !in typeName
    ensures SplitPackage(pkg + [':'] + (typeName + ['/'] + entryName))
      == Some(IdParts(pkg, typeName, entryName))
  {
    var tail := typeName + ['/'] + entryName;
    SplitAt(pkg, ':', tail);
    SplitTypeOf(typeName, entryName);
  }

  lemma SplitTypeOf(typeName: string, entryName: string)
    requires '/' !in typeName
    ensures SplitType(typeName + ['/'] + entryName) == Some((typeName, entryName))
  {
    SplitAt(typeName, '/', entryName);
  }

  lemma Unwrap(middle: string)
    ensures ParseIdText("[@" + middle + "]") == SplitPackage(middle)
  {
    var s := "[@" + middle + "]";
    assert s[..2] == "[@" && s[|s| - 1] == ']';
    assert s[2..|s| - 1] == middle;
  }

  /** Splitting `a + [c] + b` at its first `c` gives back `a` and `b` when `a` has none. */
  lemma SplitAt(a: string, c: char, b: string)
    requires c !in a
    ensures IndexOf(a + [c] + b, c) == |a|
    ensures (a + [c] + b)[..|a|] == a && (a + [c] + b)[|a| + 1..] == b
  {
    var s := a + [c] + b;
    assert s[..|a|] == a && s[|a|] == c;
  }

  // ---------------------------------------------------------------------------
  // Properties

  /** The code written for a visibility: 1 visible, -1 invisible, 0 for anything else. */
  function VisibilityCode(visibility: int32): (r: int)
    ensures r == 1 <==> visibility == VISIBLE
    ensures r == -1 <==> visibility == INVISIBLE
    ensures r == 0 <==> visibility != VISIBLE && visibility != INVISIBLE
  {
    if visibility == VISIBLE then 1 else if visibility == INVISIBLE then -1 else 0
  }

  function Quad(a: int, b: int, c: int, d: int): string {
    "[" + IntToString(a) + "," + IntToString(b) + "," + IntToString(c) + "," + IntToString(d) + "]"
  }

  function RectText(r: Rect): string {
    Quad(r.left, r.top, r.right, r.bottom)
  }

  /** One `'key':value` pair of the properties string. */
  datatype Field = Field(key: string, value: string)

  /** The key of some field is `key`. */
  predicate HasKey(fs: seq<Field>, key: string) {
    exists i :: 0 <= i < |fs| && fs[i].key == key
  }

  lemma HasKeyAppend(a: seq<Field>, b: seq<Field>, key: string)
    ensures HasKey(a + b, key) <==> HasKey(a, key) || HasKey(b, key)
  {
    if HasKey(a + b, key) {
      var i :| 0 <= i < |a + b| && (a + b)[i].key == key;
      if i >= |a| {
        assert b[i - |a|].key == key;
      }
    }
    if HasKey(b, key) {
      var j :| 0 <= j < |b| && b[j].key == key;
      assert (a + b)[|a| + j].key == key;
    }
    if HasKey(a, key) {
      var j :| 0 <= j < |a| && a[j].key == key;
      assert (a + b)[j].key == key;
    }
  }

  /** The five fields every view reports first. */
  function LeadingFields(v: View): (fs: seq<Field>)
    ensures |fs| == 5
    ensures fs[0].key == "name" && fs[1].key == "id" && fs[2].key == "hashCode"
    ensures fs[3].key == "bounds" && fs[4].key == "padding"
  {
    [ Field("name", "'" + v.className + "'"),
      Field("id", "'" + IdName(v.id, v.resources) + "'"),
      Field("hashCode", "'" + IntToString(v.hashCode) + "'"),
      Field("bounds", Quad(v.left, v.top, v.width, v.height)),
      Field("padding", RectText(v.padding))]
  }

  function MarginField(v: View): seq<Field> {
    if v.margin.Some? then [Field("margin", RectText(v.margin.value))] else []
  }

  function DrawablePaddingField(v: View): seq<Field> {
    if v.background.NoBackground? then []
    else [Field("drawablePadding", RectText(v.background.padding))]
  }

  function VisibilityField(v: View): Field {
    Field("visibility", IntToString(VisibilityCode(v.visibility)))
  }

  /** The properties of a view as a list of fields, in the order they are written. */
  function PropertyFields(v: View): seq<Field> {
    LeadingFields(v) + MarginField(v) + DrawablePaddingField(v) + [VisibilityField(v)]
  }

  /**
   * name, id, hashCode, bounds and padding come first and visibility last, with the
   * code VisibilityCode gives; bounds are left, top, width and height.
   */
  lemma PropertyFieldsOrder(v: View)
    ensures var fs := PropertyFields(v);
      && |fs| == 6 + (if v.margin.Some? then 1 else 0) + (if v.background.NoBackground? then 0 else 1)
      && fs[0].key == "name" && fs[1].key == "id" && fs[2].key == "hashCode"
      && fs[3].key == "bounds" && fs[4].key == "padding"
      && fs[3].value == Quad(v.left, v.top, v.width, v.height)
      && fs[|fs| - 1] == Field("visibility", IntToString(VisibilityCode(v.visibility)))
  {
    FieldsShape(LeadingFields(v), MarginField(v), DrawablePaddingField(v), VisibilityField(v));
  }

  lemma FieldsShape(head: seq<Field>, margin: seq<Field>, drawable: seq<Field>, last: Field)
    requires |head| == 5
    ensures var fs := head + margin + drawable + [last];
      |fs| == 6 + |margin| + |drawable| && fs[..5] == head && fs[|fs| - 1] == last
  {
    var fs := head + margin + drawable + [last];
    assert fs[..5] == head;
  }

  /** margin is there exactly for margin layout params, drawablePadding exactly when
      the view has a background. */
  lemma PropertyFieldsOptional(v: View)
    ensures HasKey(PropertyFields(v), "margin") <==> v.margin.Some?
    ensures HasKey(PropertyFields(v), "drawablePadding") <==> !v.background.NoBackground?
  {
    var head, margin, drawable, last :=
      LeadingFields(v), MarginField(v), DrawablePaddingField(v), VisibilityField(v);
    KeyNotAmong(head, "margin");
    KeyNotAmong(head, "drawablePadding");
    FieldsKey(head, margin, drawable, last, "margin");
    FieldsKey(head, margin, drawable, last, "drawablePadding");
    assert HasKey(margin, "margin") <==> v.margin.Some? by {
      if v.margin.Some? {
        assert margin[0].key == "margin";
      }
    }
    assert HasKey(drawable, "drawablePadding") <==> !v.background.NoBackground? by {
      if !v.background.NoBackground? {
        assert drawable[0].key == "drawablePadding";
      }
    }
    assert !HasKey(drawable, "margin") && !HasKey(margin, "drawablePadding");
  }

  /** A key that is neither leading nor last is present exactly when an optional field has it. */
  lemma FieldsKey(head: seq<Field>, margin: seq<Field>, drawable: seq<Field>, last: Field, key: string)
    requires !HasKey(head, key) && last.key != key
    ensures HasKey(head + margin + drawable + [last], key) <==> HasKey(margin, key) || HasKey(drawable, key)
  {
    HasKeyAppend(head + margin + drawable, [last], key);
    HasKeyAppend(head + margin, drawable, key);
    HasKeyAppend(head, margin, key);
  }

  /** Neither optional key is one of the five leading keys or the last one. */
  lemma KeyNotAmong(head: seq<Field>, key: string)
    requires |head| == 5
    requires head[0].key == "name" && head[1].key == "id" && head[2].key == "hashCode"
    requires head[3].key == "bounds" && head[4].key == "padding"
    requires key == "margin" || key == "drawablePadding"
    ensures !HasKey(head, key)
    ensures key != "visibility"
  {
    assert "margin"[0] == 'm' && "bounds"[0] == 'b';
  }

  /** The fields written as ` 'key':value`, separated by commas. */
  function RenderFields(fs: seq<Field>): string {
    if fs == [] then ""
    else if |fs| == 1 then " '" + fs[0].key + "':" + fs[0].value
    else " '" + fs[0].key + "':" + fs[0].value + "," + RenderFields(fs[1..])
  }

  /**
   * getProperties: ` 'name':'…', 'id':'…', 'hashCode':'…', 'bounds':[…], 'padding':[…],`
   * then the optional margin and drawablePadding, then ` 'visibility':n`.
   */
  function Properties(v: View): string {
    RenderFields(PropertyFields(v))
  }

  // ---------------------------------------------------------------------------
  // Captures

  /** What one capture posted to the UI thread yields to the waiting thread. */
  datatype Capture = Done(fragment: Option<string>) | Failed

  /** The outcome of getBitmap. */
  datatype BitmapOutcome = NoBitmap | Allocated | Threw

  /**
   * getBitmap: null for a zero width or height, and when Bitmap.createBitmap runs out
   * of memory; a negative size makes createBitmap throw, which getBitmap does not catch.
   * `allocates` is whether this call's createBitmap finds the memory.
   */
  function GetBitmap(v: View, allocates: bool): (b: BitmapOutcome)
    ensures v.width == 0 || v.height == 0 ==> b == NoBitmap
    ensures b == Allocated <==> v.width > 0 && v.height > 0 && allocates
    ensures b == Threw <==> v.width != 0 && v.height != 0 && (v.width < 0 || v.height < 0)
  {
    if v.width == 0 || v.height == 0 then NoBitmap
    else if v.width < 0 || v.height < 0 then Threw
    else if !allocates then NoBitmap
    else Allocated
  }

  /** `, 'key':'data:image/png;base64,<png>'`. */
  function ImageFragment(key: string, png: string): string {
    ", '" + key + "':'" + BASE64_IDENTIFIER + png + "'"
  }

  /** `, 'backgroundColor':'#<hex>'`. */
  function ColorFragment(color: int32): string {
    ", 'backgroundColor':'#" + HexString(color) + "'"
  }

  const COLOR_PREFIX := ", 'backgroundColor':'#"

  /** Reads the colour back out of a colour fragment. */
  function ParseColorFragment(s: string): Option<int32> {
    if |s| > |COLOR_PREFIX| && s[..|COLOR_PREFIX|] == COLOR_PREFIX && s[|s| - 1] == '\''
    then ParseHex(s[|COLOR_PREFIX|..|s| - 1])
    else None
  }

  /** The colour written for a colour background is the drawable's colour, all 32 bits. */
  lemma ColorFragmentRoundTrip(color: int32)
    ensures ParseColorFragment(ColorFragment(color)) == Some(color)
  {
    var hex := HexString(color);
    var s := ColorFragment(color);
    assert s == COLOR_PREFIX + hex + "'";
    assert s[..|COLOR_PREFIX|] == COLOR_PREFIX;
    assert s[|COLOR_PREFIX|..|s| - 1] == hex;
    HexStringRoundTrip(color);
  }

  /** getBackground. */
  function BackgroundCapture(v: View): (c: Capture)
    ensures c == Done(None) <==>
      || v.visibility != VISIBLE
      || v.background.NoBackground?
      || (v.background.ColorDrawable? && v.background.color == 0)
      || (v.background.OtherDrawable? && GetBitmap(v, v.render.backgroundAllocates) == NoBitmap)
    ensures c.Failed? <==>
      v.visibility == VISIBLE && v.background.OtherDrawable? && GetBitmap(v, v.render.backgroundAllocates) == Threw
    ensures c.Done? && c.fragment.Some? && v.background.ColorDrawable? ==>
      c.fragment.value == ColorFragment(v.background.color)
      && ParseColorFragment(c.fragment.value) == Some(v.background.color)
    ensures c.Done? && c.fragment.Some? && v.background.OtherDrawable? ==>
      c.fragment.value == ImageFragment("backgroundImage", v.render.backgroundPng)
  {
    if v.visibility != VISIBLE then Done(None)
    else match v.background
      case NoBackground => Done(None)
      case ColorDrawable(color, _) =>
        ColorFragmentRoundTrip(color);
        if color == 0 then Done(None) else Done(Some(ColorFragment(color)))
      case OtherDrawable(_) =>
        match GetBitmap(v, v.render.backgroundAllocates)
        case NoBitmap => Done(None)
        case Threw => Failed
        case Allocated => Done(Some(ImageFragment("backgroundImage", v.render.backgroundPng)))
  }

  /** isPhoneWindow: the class name contains "PhoneWindow". */
  predicate IsPhoneWindow(v: View) {
    Contains(v.className, PHONE_WINDOW)
  }

  /**
   * The reflective onDraw lookup: the canvas calls of the first class, walking up from
   * the view's own class, that declares onDraw; None when no class before View does.
   */
  function FirstOnDraw(chain: seq<Option<seq<CanvasOp>>>): (r: Option<seq<CanvasOp>>)
    ensures r.None? <==> forall i :: 0 <= i < |chain| ==> chain[i].None?
    ensures r.Some? ==> exists i :: 0 <= i < |chain| && chain[i] == r
                          && forall j :: 0 <= j < i ==> chain[j].None?
  {
    if chain == [] then None
    else if chain[0].Some? then chain[0]
    else
      var r := FirstOnDraw(chain[1..]);
      assert forall i :: 1 <= i < |chain| ==> chain[i] == chain[1..][i - 1];
      r
  }

  /** Drawing the view's own content touches a fresh canvas. */
  predicate DrawsSomething(v: View) {
    var onDraw := FirstOnDraw(v.render.onDrawChain);
    onDraw.Some? && TouchedAfter(false, onDraw.value)
  }

  /** getContent. */
  function ContentCapture(v: View): (c: Capture)
    ensures c.Failed? <==> !IsPhoneWindow(v) && v.visibility == VISIBLE && GetBitmap(v, v.render.contentAllocates) == Threw
    ensures c.Done? && c.fragment.Some? <==>
      !IsPhoneWindow(v) && v.visibility == VISIBLE && GetBitmap(v, v.render.contentAllocates) == Allocated && DrawsSomething(v)
    ensures c.Done? && c.fragment.Some? ==>
      c.fragment.value == ImageFragment("content", v.render.contentPng)
  {
    if IsPhoneWindow(v) || v.visibility != VISIBLE then Done(None)
    else match GetBitmap(v, v.render.contentAllocates)
      case NoBitmap => Done(None)
      case Threw => Failed
      case Allocated =>
        if DrawsSomething(v) then Done(Some(ImageFragment("content", v.render.contentPng)))
        else Done(None)
  }

  /** A view of zero width or height has neither a background image nor content. */
  lemma ZeroSizeHasNoImages(v: View)
    requires v.width == 0 || v.height == 0
    ensures ContentCapture(v) == Done(None)
    ensures BackgroundCapture(v).Done?
    ensures BackgroundCapture(v).fragment.Some? ==>
      v.background.ColorDrawable? && BackgroundCapture(v).fragment.value == ColorFragment(v.background.color)
  {}

  /** A content capture whose drawing makes no canvas call yields no content. */
  lemma UntouchedCanvasOmitsContent(v: View)
    requires var onDraw := FirstOnDraw(v.render.onDrawChain); onDraw.None? || onDraw.value == []
    ensures ContentCapture(v).Done? ==> ContentCapture(v).fragment.None?
  {
    var onDraw := FirstOnDraw(v.render.onDrawChain);
    if onDraw.Some? {
      TouchedAfterIff(false, onDraw.value);
    }
  }

  /** Future.get: the capture's own outcome unless waiting for it is interrupted. */
  function Await(interrupted: set<Task>, t: Task, c: Capture): (r: Capture)
    ensures t in interrupted ==> r.Failed?
    ensures t !in interrupted ==> r == c
  {
    if t in interrupted then Failed else c
  }

  function FragmentText(c: Capture): string {
    if c.Done? && c.fragment.Some? then c.fragment.value else ""
  }

  /** Everything a node could write between `{` and the children, if no wait failed. */
  function FullBody(v: View): string {
    Properties(v) + FragmentText(BackgroundCapture(v)) + FragmentText(ContentCapture(v))
  }

  /**
   * What printHierarchy writes between `{` and `, 'children':[`: the properties, then the
   * background and the content when present; the first failed wait skips the rest.
   */
  function NodeBody(v: View): (r: string)
    ensures r <= FullBody(v)
    ensures PropertiesTask in v.render.interrupted ==> r == ""
    ensures PropertiesTask !in v.render.interrupted ==> Properties(v) <= r
    ensures (PropertiesTask !in v.render.interrupted
             && (BackgroundTask in v.render.interrupted || BackgroundCapture(v).Failed?))
      ==> r == Properties(v)
    ensures (PropertiesTask !in v.render.interrupted
             && BackgroundTask !in v.render.interrupted && BackgroundCapture(v).Done?)
      ==> Properties(v) + FragmentText(BackgroundCapture(v)) <= r
    ensures (PropertiesTask !in v.render.interrupted
             && BackgroundTask !in v.render.interrupted && BackgroundCapture(v).Done?
             && (ContentTask in v.render.interrupted || ContentCapture(v).Failed?))
      ==> r == Properties(v) + FragmentText(BackgroundCapture(v))
    ensures (v.render.interrupted == {} && BackgroundCapture(v).Done? && ContentCapture(v).Done?)
      ==> r == FullBody(v)
  {
    AwaitedBody(v.render.interrupted, Properties(v), BackgroundCapture(v), ContentCapture(v))
  }

  /** The three waits of the try block over captures already computed. */
  function AwaitedBody(interrupted: set<Task>, properties: string, background: Capture,
                       content: Capture): (r: string)
    ensures r <= properties + FragmentText(background) + FragmentText(content)
    ensures PropertiesTask in interrupted ==> r == ""
    ensures PropertiesTask !in interrupted ==> properties <= r
    ensures (PropertiesTask !in interrupted && (BackgroundTask in interrupted || background.Failed?))
      ==> r == properties
    ensures (PropertiesTask !in interrupted && BackgroundTask !in interrupted && background.Done?)
      ==> properties + FragmentText(background) <= r
    ensures (PropertiesTask !in interrupted && BackgroundTask !in interrupted && background.Done?
             && (ContentTask in interrupted || content.Failed?))
      ==> r == properties + FragmentText(background)
    ensures (interrupted == {} && background.Done? && content.Done?)
      ==> r == properties + FragmentText(background) + FragmentText(content)
  {
    var p := Await(interrupted, PropertiesTask, Done(Some(properties)));
    var b := Await(interrupted, BackgroundTask, background);
    var c := Await(interrupted, ContentTask, content);
    var r := BodyOf(p, b, c);
    assert r <= properties + FragmentText(background) + FragmentText(content) by {
      if !p.Failed? && !b.Failed? && !c.Failed? {
        assert r == properties + FragmentText(background) + FragmentText(content);
      }
    }
    r
  }

  /** The fragments of the three captures in order, up to the first failed one. */
  function BodyOf(p: Capture, b: Capture, c: Capture): (r: string)
    ensures p.Failed? ==> r == ""
    ensures !p.Failed? ==> FragmentText(p) <= r
    ensures !p.Failed? && b.Failed? ==> r == FragmentText(p)
    ensures !p.Failed? && !b.Failed? ==> FragmentText(p) + FragmentText(b) <= r
    ensures !p.Failed? && !b.Failed? && c.Failed? ==> r == FragmentText(p) + FragmentText(b)
    ensures !p.Failed? && !b.Failed? && !c.Failed? ==>
      r == FragmentText(p) + FragmentText(b) + FragmentText(c)
  {
    if p.Failed? then ""
    else if b.Failed? then FragmentText(p)
    else if c.Failed? then FragmentText(p) + FragmentText(b)
    else FragmentText(p) + FragmentText(b) + FragmentText(c)
  }

  // ---------------------------------------------------------------------------
  // The walk

  /** The tree printHierarchy writes: each node's body, whether it is a group, its children. */
  datatype Printed = Printed(body: string, isGroup: bool, children: seq<Printed>)

  /** The printed tree of `v`: NodeBody at every node, children in index order. */
  function Print(v: View): (p: Printed)
    ensures p.body == NodeBody(v) && p.isGroup == v.isGroup && |p.children| == |v.children|
    decreases v
  {
    Printed(NodeBody(v), v.isGroup,
      seq(|v.children|, i requires 0 <= i < |v.children| => Print(v.children[i])))
  }

  lemma PrintChild(v: View, i: nat)
    requires i < |v.children|
    ensures Print(v).children[i] == Print(v.children[i])
  {}

  /** The text of a printed node and its subtree. */
  function Output(p: Printed): string
    decreases p, 1
  {
    "{" + p.body + ", 'children':[" + (if p.isGroup then Joined(p, |p.children|) else "") + "]}"
  }

  /** The first `k` children as the loop writes them: each followed by `,` unless last. */
  function Joined(p: Printed, k: nat): string
    requires k <= |p.children|
    decreases p, 0, k
  {
    if k == 0 then ""
    else Joined(p, k - 1) + Output(p.children[k - 1]) + (if k < |p.children| then "," else "")
  }

  /** Joins strings with `,` between neighbours and none after the last. */
  function CommaSeparated(items: seq<string>): string {
    if items == [] then "" else if |items| == 1 then items[0]
    else items[0] + "," + CommaSeparated(items[1..])
  }

  /** The texts of the first `k` children, in index order. */
  function ChildTexts(p: Printed, k: nat): (ts: seq<string>)
    requires k <= |p.children|
    ensures |ts| == k
  {
    if k == 0 then [] else ChildTexts(p, k - 1) + [Output(p.children[k - 1])]
  }

  lemma {:induction false} ChildTextsAt(p: Printed, k: nat, i: nat)
    requires i < k <= |p.children|
    ensures ChildTexts(p, k)[i] == Output(p.children[i])
    decreases k
  {
    if i < k - 1 {
      ChildTextsAt(p, k - 1, i);
    }
  }

  lemma {:induction false} CommaSeparatedSnoc(items: seq<string>, last: string)
    ensures CommaSeparated(items + [last]) == if items == [] then last else CommaSeparated(items) + "," + last
    decreases |items|
  {
    if |items| > 1 {
      assert (items + [last])[1..] == items[1..] + [last];
      CommaSeparatedSnoc(items[1..], last);
    } else if |items| == 1 {
      assert (items + [last])[1..] == [last];
    }
  }

  /** The loop's first `k` children: their texts comma separated, plus a `,` if more follow. */
  lemma {:induction false} JoinedPrefix(p: Printed, k: nat)
    requires k <= |p.children|
    ensures Joined(p, k) == CommaSeparated(ChildTexts(p, k)) + (if 0 < k < |p.children| then "," else "")
    decreases k
  {
    if k > 0 {
      JoinedPrefix(p, k - 1);
      CommaSeparatedSnoc(ChildTexts(p, k - 1), Output(p.children[k - 1]));
    }
  }

  /**
   * A node's text: `{`, its body, then the children's texts in index order with a `,`
   * between neighbours and no trailing `,` (nothing for a view that is not a group), then `]}`.
   */
  lemma TextShape(p: Printed)
    ensures Output(p) == "{" + p.body + ", 'children':["
      + (if p.isGroup then CommaSeparated(ChildTexts(p, |p.children|)) else "") + "]}"
  {
    JoinedPrefix(p, |p.children|);
  }

  /**
   * The text printHierarchy writes for `v`: the node body (properties, then the captures
   * present, cut short at the first failed wait), then the children section, which is
   * written even when a wait failed.
   */
  lemma PrintedText(v: View)
    ensures Output(Print(v)) == "{" + NodeBody(v) + ", 'children':["
      + (if v.isGroup then CommaSeparated(ChildTexts(Print(v), |v.children|)) else "") + "]}"
    ensures forall i :: 0 <= i < |v.children| ==> ChildTexts(Print(v), |v.children|)[i] == Output(Print(v.children[i]))
  {
    var p := Print(v);
    TextShape(p);
    forall i | 0 <= i < |v.children|
      ensures ChildTexts(p, |v.children|)[i] == Output(Print(v.children[i]))
    {
      ChildTextsAt(p, |v.children|, i);
    }
  }

  // ---------------------------------------------------------------------------
  // The printer

  /** The BufferedWriter: text is appended and never taken back. */
  class Writer {
    var text: string

    constructor ()
      ensures text == []
    {
      text := [];
    }

    method Write(s: string)
      modifies this
      ensures text == old(text) + s
    {
      text := text + s;
    }
  }

  /**
   * The onDraw lookup of getContent: walk up the class chain, and draw with the first
   * class that declares onDraw.
   */
  method DrawWithOwnClass(canvas: ProxyCanvas, chain: seq<Option<seq<CanvasOp>>>)
    modifies canvas
    ensures canvas.touched == match FirstOnDraw(chain)
                              case None => old(canvas.touched)
                              case Some(ops) => TouchedAfter(old(canvas.touched), ops)
  {
    var i := 0;
    while i < |chain|
      invariant 0 <= i <= |chain|
      invariant FirstOnDraw(chain[i..]) == FirstOnDraw(chain)
      invariant canvas.touched == old(canvas.touched)
    {
      if chain[i].Some? {
        canvas.Receive(chain[i].value);
        return;
      }
      assert chain[i..][1..] == chain[i + 1..];
      i := i + 1;
    }
  }

  /** Visible entries become invisible; the others stay as they are. */
  function Hidden(visibility: seq<int32>): (r: seq<int32>)
    ensures |r| == |visibility|
    ensures forall i :: 0 <= i < |r| ==>
      r[i] == (if visibility[i] == VISIBLE then INVISIBLE else visibility[i])
  {
    seq(|visibility|, i requires 0 <= i < |visibility| =>
      if visibility[i] == VISIBLE then INVISIBLE else visibility[i])
  }

  /**
   * getContent over the children's visibilities: save them, hide the visible ones,
   * draw, put every saved value back, and keep the image only if the canvas was touched.
   * `whileDrawing` is what the children's visibilities were while the view drew.
   */
  method CaptureContent(v: View, childVisibility: array<int32>)
    returns (c: Capture, ghost whileDrawing: seq<int32>)
    modifies childVisibility
    ensures c == ContentCapture(v)
    ensures childVisibility[..] == old(childVisibility[..])
    ensures !IsPhoneWindow(v) && v.visibility == VISIBLE && GetBitmap(v, v.render.contentAllocates) == Allocated ==>
      whileDrawing == if v.isGroup then Hidden(old(childVisibility[..])) else old(childVisibility[..])
  {
    whileDrawing := childVisibility[..];
    if IsPhoneWindow(v) || v.visibility != VISIBLE {
      return Done(None), whileDrawing;
    }
    var bitmap := GetBitmap(v, v.render.contentAllocates);
    if bitmap == NoBitmap {
      return Done(None), whileDrawing;
    } else if bitmap == Threw {
      return Failed, whileDrawing;
    }

    var canvas := new ProxyCanvas();
    var visibilities: array?<int32> := null;
    if v.isGroup {
      visibilities := SaveAndHide(childVisibility);
    }
    whileDrawing := childVisibility[..];

    DrawWithOwnClass(canvas, v.render.onDrawChain);

    if v.isGroup {
      if childVisibility.Length > 0 {
        Restore(childVisibility, visibilities);
      }
    }

    var touched := canvas.WasTouched();
    if !touched {
      return Done(None), whileDrawing;
    }
    // compressBitmapToString detaches the bitmap from the canvas.
    canvas.Call(SetBitmap);
    c := Done(Some(ImageFragment("content", v.render.contentPng)));
  }

  /** The first loop of getContent: save every child's visibility, hide the visible ones. */
  method SaveAndHide(childVisibility: array<int32>) returns (visibilities: array<int32>)
    modifies childVisibility
    ensures fresh(visibilities)
    ensures visibilities[..] == old(childVisibility[..])
    ensures childVisibility[..] == Hidden(old(childVisibility[..]))
  {
    var count := childVisibility.Length;
    visibilities := new int32[count];
    for i := 0 to count
      modifies childVisibility, visibilities
      invariant visibilities[..i] == old(childVisibility[..i])
      invariant childVisibility[..i] == Hidden(old(childVisibility[..i]))
      invariant childVisibility[i..] == old(childVisibility[i..])
    {
      visibilities[i] := childVisibility[i];
      if visibilities[i] == VISIBLE {
        childVisibility[i] := INVISIBLE;
      }
      assert old(childVisibility[..i + 1]) == old(childVisibility[..i]) + [old(childVisibility[i])];
    }
    assert childVisibility[..] == childVisibility[..count];
    assert old(childVisibility[..]) == old(childVisibility[..count]);
    assert visibilities[..] == visibilities[..count];
  }

  /** The second loop of getContent: every child gets its saved visibility back. */
  method Restore(childVisibility: array<int32>, visibilities: array<int32>)
    requires childVisibility.Length == visibilities.Length && childVisibility != visibilities
    modifies childVisibility
    ensures childVisibility[..] == visibilities[..]
  {
    var count := childVisibility.Length;
    for i := 0 to count
      invariant childVisibility[..i] == visibilities[..i]
    {
      childVisibility[i] := visibilities[i];
    }
    assert childVisibility[..] == childVisibility[..count];
    assert visibilities[..] == visibilities[..count];
  }

  /** The content capture run against the view's children, as the UI thread runs it. */
  method RunContentCapture(v: View) returns (c: Capture)
    ensures c == ContentCapture(v)
  {
    var count := |v.children|;
    var childVisibility := new int32[count](i requires 0 <= i < count => v.children[i].visibility);
    ghost var whileDrawing;
    c, whileDrawing := CaptureContent(v, childVisibility);
  }

  /**
   * The try block of printHierarchy: write the properties, then the background and the
   * content when present; a failed wait skips whatever has not been written yet.
   */
  method WriteNodeBody(out: Writer, v: View)
    modifies out
    ensures out.text == old(out.text) + NodeBody(v)
  {
    var properties := Await(v.render.interrupted, PropertiesTask, Done(Some(Properties(v))));
    var background := Await(v.render.interrupted, BackgroundTask, BackgroundCapture(v));
    var content := RunContentCapture(v);
    content := Await(v.render.interrupted, ContentTask, content);
    WriteBody(out, properties, background, content);
  }

  /** Writes the fragments of the captures up to the first failed one. */
  method WriteBody(out: Writer, p: Capture, b: Capture, c: Capture)
    modifies out
    ensures out.text == old(out.text) + BodyOf(p, b, c)
  {
    if p.Failed? {
      return;
    }
    var pt := FragmentText(p);
    out.Write(pt);
    if b.Failed? {
      return;
    }
    var bt := FragmentText(b);
    if b.fragment.Some? {
      out.Write(bt);
    } else {
      assert out.text == out.text + bt;
    }
    assert out.text == old(out.text) + (pt + bt);
    if c.Failed? {
      return;
    }
    var ct := FragmentText(c);
    if c.fragment.Some? {
      out.Write(ct);
    } else {
      assert out.text == out.text + ct;
    }
    assert out.text == old(out.text) + (pt + bt + ct);
  }

  /**
   * printHierarchy: writes `{`, the node body, then the children in index order
   * separated by `,`, then `]}`; it always reports success.
   */
  method PrintHierarchy(out: Writer, v: View) returns (ok: bool)
    modifies out
    ensures out.text == old(out.text) + Output(Print(v))
    ensures ok
    decreases v, 2
  {
    ghost var p := Print(v);
    WriteOpening(out, v, p);
    if v.isGroup {
      PrintChildren(v);
      WriteChildren(out, v, p);
    }
    out.Write("]}");
    OutputOf(p, old(out.text), out.text);
    ok := true;
  }

  /** `{`, the node body and the opening of the children section. */
  method WriteOpening(out: Writer, v: View, ghost p: Printed)
    requires p.body == NodeBody(v)
    modifies out
    ensures out.text == old(out.text) + "{" + p.body + ", 'children':["
  {
    out.Write("{");
    WriteNodeBody(out, v);
    out.Write(", 'children':[");
  }

  lemma OutputOf(p: Printed, before: string, after: string)
    requires after == before + "{" + p.body + ", 'children':["
      + (if p.isGroup then Joined(p, |p.children|) else "") + "]}"
    ensures after == before + Output(p)
  {}

  /** `p`'s children are the printed trees of `v`'s children, in index order. */
  ghost predicate ChildrenPrinted(p: Printed, v: View) {
    |p.children| == |v.children| &&
    forall i {:trigger Print(v.children[i])} :: 0 <= i < |v.children| ==> p.children[i] == Print(v.children[i])
  }

  lemma PrintChildren(v: View)
    ensures ChildrenPrinted(Print(v), v)
  {
    forall i | 0 <= i < |v.children|
      ensures Print(v).children[i] == Print(v.children[i])
    {
      PrintChild(v, i);
    }
  }

  /** The loop of printHierarchy over a group's children. */
  method WriteChildren(out: Writer, v: View, ghost p: Printed)
    requires ChildrenPrinted(p, v)
    modifies out
    ensures out.text == old(out.text) + Joined(p, |p.children|)
    decreases v, 1
  {
    ghost var start := out.text;
    var count := |v.children|;
    for i := 0 to count
      invariant out.text == start + Joined(p, i)
    {
      WriteChild(out, v, i, p, start);
    }
  }

  /** One iteration: the child's text, then `,` unless it is the last child. */
  method WriteChild(out: Writer, v: View, i: nat, ghost p: Printed, ghost start: string)
    requires i < |v.children| && ChildrenPrinted(p, v)
    requires out.text == start + Joined(p, i)
    modifies out
    ensures out.text == start + Joined(p, i + 1)
    decreases v, 0
  {
    ghost var before := out.text;
    var _ := PrintHierarchy(out, v.children[i]);
    if i + 1 < |v.children| {
      out.Write(",");
    }
    JoinedStep(p, i, start, before, out.text);
  }

  lemma JoinedStep(p: Printed, i: nat, prefix: string, before: string, after: string)
    requires i < |p.children|
    requires before == prefix + Joined(p, i)
    requires after == before + Output(p.children[i]) + (if i + 1 < |p.children| then "," else "")
    ensures after == prefix + Joined(p, i + 1)
  {}
}
