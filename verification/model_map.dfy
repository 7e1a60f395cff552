/** The mesh model map: splitAndTrim, the parser built on it, and the lookup. */
module ModelMap {
  import opened Common

  /** White space as Go's unicode.IsSpace has it. */
  predicate IsSpace(c: char) {
    || '\t' <= c <= '\r' || c == ' ' || c == '\U{85}' || c == '\U{A0}' || c == '\U{1680}'
    || '\U{2000}' <= c <= '\U{200A}' || c == '\U{2028}' || c == '\U{2029}' || c == '\U{202F}'
    || c == '\U{205F}' || c == '\U{3000}'
  }

  /** The 25 code points with the Unicode property White_Space. */
  lemma SpacesAre(c: char)
    ensures IsSpace(c) <==>
            c in {'\U{9}', '\U{A}', '\U{B}', '\U{C}', '\U{D}', '\U{20}', '\U{85}', '\U{A0}', '\U{1680}',
                  '\U{2000}', '\U{2001}', '\U{2002}', '\U{2003}', '\U{2004}', '\U{2005}', '\U{2006}', '\U{2007}',
                  '\U{2008}', '\U{2009}', '\U{200A}', '\U{2028}', '\U{2029}', '\U{202F}', '\U{205F}', '\U{3000}'}
  {
  }

  function TrimLeft(s: string): string {
    if s != "" && IsSpace(s[0]) then TrimLeft(s[1..]) else s
  }

  function TrimRight(s: string): string {
    if s != "" && IsSpace(s[|s| - 1]) then TrimRight(s[..|s| - 1]) else s
  }

  /** strings.TrimSpace */
  function Trim(s: string): string {
    TrimRight(TrimLeft(s))
  }

  /** First occurrence of `sep`, or -1. */
  function Index(s: string, sep: string): (r: int)
    ensures -1 <= r
    ensures r >= 0 ==> Occurs(s, sep, r) && forall k: nat | k < r :: !Occurs(s, sep, k)
    ensures r < 0 ==> forall k: nat :: !Occurs(s, sep, k)
  {
    if Occurs(s, sep, 0) then 0
    else if |s| < |sep| then -1
    else
      assert forall k: nat | Occurs(s, sep, k) :: k > 0 && Occurs(s[1..], sep, k - 1);
      var r := Index(s[1..], sep);
      if r < 0 then -1 else r + 1
  }

  /** strings.Split for a non-empty separator. */
  function Split(s: string, sep: string): seq<string>
    requires sep != ""
    decreases |s|
  {
    var i := Index(s, sep);
    if i < 0 then [s] else [s[..i]] + Split(s[i + |sep|..], sep)
  }

  function TrimmedParts(pieces: seq<string>): seq<string> {
    if pieces == [] then []
    else
      var part := Trim(pieces[|pieces| - 1]);
      TrimmedParts(pieces[..|pieces| - 1]) + if part != "" then [part] else []
  }

  method SplitAndTrim(s: string, sep: string) returns (result: seq<string>)
    requires sep != ""
    ensures result == TrimmedParts(Split(s, sep))
  {
    result := [];
    var pieces := Split(s, sep);
    for i := 0 to |pieces|
      invariant result == TrimmedParts(pieces[..i])
    {
      assert pieces[..i + 1][..i] == pieces[..i];
      var part := Trim(pieces[i]);
      if part != "" {
        result := result + [part];
      }
    }
    assert pieces[..|pieces|] == pieces;
  }

  type Names = map<string, string>

  /** The effect of one comma-separated item. */
  function AddItem(m: Names, item: string): Names {
    var parts := TrimmedParts(Split(item, "->"));
    if |parts| == 2 then m[parts[0] := parts[1]] else m
  }

  function AddItems(items: seq<string>): Names {
    if items == [] then map[] else AddItem(AddItems(items[..|items| - 1]), items[|items| - 1])
  }

  /** What MESH_MODEL_MAP stands for. */
  function Parsed(raw: string): Names {
    AddItems(TrimmedParts(Split(raw, ",")))
  }

  lemma AddItemsNext(items: seq<string>, i: nat)
    requires i < |items|
    ensures AddItems(items[..i + 1]) == AddItem(AddItems(items[..i]), items[i])
  {
    assert items[..i + 1][..i] == items[..i];
  }

  // None is Go's nil map.
  method ParseModelMap(raw: string) returns (m: Option<Names>)
    ensures m == if raw == "" then None else Some(Parsed(raw))
  {
    if raw == "" {
      return None;
    }
    var result: Names := map[];
    var items := SplitAndTrim(raw, ",");
    for i := 0 to |items|
      invariant result == AddItems(items[..i])
    {
      var parts := SplitAndTrim(items[i], "->");
      AddItemsNext(items, i);
      if |parts| == 2 {
        result := result[parts[0] := parts[1]];
      }
    }
    assert items[..|items|] == items;
    m := Some(result);
  }

  function MapModel(modelMap: Option<Names>, model: string): string {
    if modelMap.None? then model
    else if model in modelMap.value then modelMap.value[model]
    else model
  }

  // ---------------------------------------------------------------- trimming

  predicate Blank(s: string) {
    forall k | 0 <= k < |s| :: IsSpace(s[k])
  }

  /** Nothing for TrimSpace to remove. */
  predicate Trimmed(s: string) {
    s != "" ==> !IsSpace(s[0]) && !IsSpace(s[|s| - 1])
  }

  lemma {:induction false} TrimLeftPad(ws: string, s: string)
    requires Blank(ws) && (s != "" ==> !IsSpace(s[0]))
    ensures TrimLeft(ws + s) == s
    decreases |ws|
  {
    if ws == "" {
      assert ws + s == s;
    } else {
      TrimLeftPad(ws[1..], s);
      assert (ws + s)[1..] == ws[1..] + s;
    }
  }

  lemma {:induction false} TrimRightPad(s: string, ws: string)
    requires Blank(ws) && (s != "" ==> !IsSpace(s[|s| - 1]))
    ensures TrimRight(s + ws) == s
    decreases |ws|
  {
    if ws == "" {
      assert s + ws == s;
    } else {
      TrimRightPad(s, ws[..|ws| - 1]);
      assert (s + ws)[..|s + ws| - 1] == s + ws[..|ws| - 1];
    }
  }

  lemma TrimPad(before: string, s: string, after: string)
    requires Blank(before) && Blank(after) && Trimmed(s)
    ensures Trim(before + s + after) == s
  {
    if s == "" {
      assert before + s + after == (before + after) + "";
      TrimLeftPad(before + after, "");
    } else {
      assert before + s + after == before + (s + after);
      TrimLeftPad(before, s + after);
      TrimRightPad(s, after);
    }
  }

  /** TrimSpace takes away blanks before and after, and leaves nothing to trim. */
  lemma {:induction false} TrimLeftIsSlice(s: string) returns (a: nat)
    ensures a <= |s| && TrimLeft(s) == s[a..] && (TrimLeft(s) != "" ==> !IsSpace(TrimLeft(s)[0]))
    ensures Blank(s[..a])
    decreases |s|
  {
    a := 0;
    if s != "" && IsSpace(s[0]) {
      var b := TrimLeftIsSlice(s[1..]);
      a := b + 1;
    }
  }

  lemma {:induction false} TrimRightIsSlice(s: string) returns (b: nat)
    ensures b <= |s| && TrimRight(s) == s[..b] && (TrimRight(s) != "" ==> !IsSpace(TrimRight(s)[b - 1]))
    ensures Blank(s[b..])
    decreases |s|
  {
    b := |s|;
    if s != "" && IsSpace(s[|s| - 1]) {
      b := TrimRightIsSlice(s[..|s| - 1]);
    }
  }

  lemma SliceOfSlice(s: string, a: nat, n: nat)
    requires a + n <= |s|
    ensures s[a..][..n] == s[a..a + n] && s[a..][n..] == s[a + n..]
  {
  }

  lemma TrimIsSlice(s: string) returns (a: nat, b: nat)
    ensures a <= b <= |s| && Trim(s) == s[a..b] && Trimmed(Trim(s))
    ensures Blank(s[..a]) && Blank(s[b..])
  {
    hide IsSpace;
    a := TrimLeftIsSlice(s);
    var rest := TrimLeft(s);
    var n := TrimRightIsSlice(rest);
    b := a + n;
    var t := Trim(s);
    assert t == TrimRight(rest) == rest[..n] && |t| == n;
    hide Trim, TrimLeft, TrimRight;
    SliceOfSlice(s, a, n);
    if n > 0 {
      assert t[0] == rest[0] && !IsSpace(t[0]);
      assert !IsSpace(t[n - 1]);
    }
  }

  // ---------------------------------------------------------------- splitting

  lemma OccursComma(s: string, k: nat)
    ensures Occurs(s, ",", k) <==> k < |s| && s[k] == ','
  {
    var sep := ",";
    if Occurs(s, sep, k) {
      assert s[k + 0] == sep[0];
    }
  }

  lemma OccursArrow(s: string, k: nat)
    ensures Occurs(s, "->", k) <==> k + 1 < |s| && s[k] == '-' && s[k + 1] == '>'
  {
    var sep := "->";
    if Occurs(s, sep, k) {
      assert s[k + 0] == sep[0] && s[k + 1] == sep[1];
    } else if k + 1 < |s| && s[k] == '-' {
      assert s[k + 0] == sep[0];
    }
  }

  ghost predicate Free(s: string, sep: string) {
    forall k: nat :: !Occurs(s, sep, k)
  }

  lemma SliceFree(s: string, a: nat, b: nat, sep: string)
    requires a <= b <= |s| && Free(s, sep)
    ensures Free(s[a..b], sep)
  {
    forall k: nat ensures !Occurs(s[a..b], sep, k) {
      if Occurs(s[a..b], sep, k) {
        assert Occurs(s, sep, a + k);
      }
    }
  }

  ghost predicate AllFree(pieces: seq<string>, sep: string) {
    forall i | 0 <= i < |pieces| :: Free(pieces[i], sep)
  }

  lemma AllFreeCons(p: string, pieces: seq<string>, sep: string)
    requires Free(p, sep) && AllFree(pieces, sep)
    ensures AllFree([p] + pieces, sep)
  {
    hide Free;
  }

  lemma OccursBefore(s: string, i: nat, sep: string, k: nat)
    requires i <= |s|
    ensures Occurs(s[..i], sep, k) ==> k + |sep| <= i && Occurs(s, sep, k)
  {
    assert forall j | 0 <= j < i :: s[..i][j] == s[j];
  }

  /** What stands before the first occurrence has none. */
  lemma BeforeFirst(s: string, sep: string)
    requires sep != ""
    ensures Index(s, sep) < 0 ==> Free(s, sep)
    ensures Index(s, sep) >= 0 ==> Index(s, sep) + |sep| <= |s| && Free(s[..Index(s, sep)], sep)
  {
    var i := Index(s, sep);
    if i >= 0 {
      forall k: nat ensures !Occurs(s[..i], sep, k) {
        OccursBefore(s, i, sep, k);
      }
    }
  }

  lemma {:induction false} PiecesFree(s: string, sep: string)
    requires sep != ""
    ensures Split(s, sep) != [] && AllFree(Split(s, sep), sep)
    decreases |s|
  {
    hide Index, Occurs, Free;
    BeforeFirst(s, sep);
    var i := Index(s, sep);
    if i >= 0 {
      PiecesFree(s[i + |sep|..], sep);
      AllFreeCons(s[..i], Split(s[i + |sep|..], sep), sep);
    }
  }

  lemma {:induction false} PiecesFreeOf(s: string, sep: string, other: string)
    requires sep != "" && Free(s, other)
    ensures AllFree(Split(s, sep), other)
    decreases |s|
  {
    hide Index, Occurs, Free;
    BeforeFirst(s, sep);
    var i := Index(s, sep);
    if i >= 0 {
      var rest := s[i + |sep|..];
      assert s[0..i] == s[..i] && s[i + |sep|..|s|] == rest;
      SliceFree(s, 0, i, other);
      SliceFree(s, i + |sep|, |s|, other);
      PiecesFreeOf(rest, sep, other);
      AllFreeCons(s[..i], Split(rest, sep), other);
    }
  }

  /** What splitAndTrim lets through. */
  ghost predicate Clean(p: string, sep: string) {
    p != "" && Trimmed(p) && Free(p, sep)
  }

  lemma {:induction false} PartsClean(pieces: seq<string>, sep: string)
    requires AllFree(pieces, sep)
    ensures forall p | p in TrimmedParts(pieces) :: Clean(p, sep)
    decreases |pieces|
  {
    if pieces != [] {
      var last := pieces[|pieces| - 1];
      PartsClean(pieces[..|pieces| - 1], sep);
      var a, b := TrimIsSlice(last);
      SliceFree(last, a, b, sep);
      assert Trim(last) != "" ==> Clean(Trim(last), sep);
    }
  }

  // ---------------------------------------------------------------- names that can be mapped

  /** Trimmed, non-empty, without a comma and without an arrow. */
  ghost predicate WellFormed(name: string) {
    name != "" && Trimmed(name) && Free(name, ",") && Free(name, "->")
  }

  lemma ItemClean(item: string)
    requires Free(item, ",")
    ensures forall p | p in TrimmedParts(Split(item, "->")) :: WellFormed(p)
  {
    PiecesFree(item, "->");
    PiecesFreeOf(item, "->", ",");
    PartsClean(Split(item, "->"), "->");
    PartsClean(Split(item, "->"), ",");
  }

  ghost predicate AllWellFormed(m: Names) {
    forall k | k in m :: WellFormed(k) && WellFormed(m[k])
  }

  lemma {:induction false} ItemsWellFormed(items: seq<string>)
    requires forall item | item in items :: Free(item, ",")
    ensures AllWellFormed(AddItems(items))
    decreases |items|
  {
    if items != [] {
      var last := items[|items| - 1];
      assert last in items;
      ItemsWellFormed(items[..|items| - 1]);
      ItemClean(last);
      var parts := TrimmedParts(Split(last, "->"));
      if |parts| == 2 {
        assert parts[0] in parts && parts[1] in parts;
      }
    }
  }

  /** Whatever the environment variable holds, only well-formed names come out of it. */
  lemma ParsedWellFormed(raw: string)
    ensures AllWellFormed(Parsed(raw))
  {
    PiecesFree(raw, ",");
    PartsClean(Split(raw, ","), ",");
    ItemsWellFormed(TrimmedParts(Split(raw, ",")));
  }

  // ---------------------------------------------------------------- the documented form

  function Join(items: seq<string>, sep: string): string {
    if items == [] then ""
    else if |items| == 1 then items[0]
    else items[0] + sep + Join(items[1..], sep)
  }

  lemma IndexIs(s: string, sep: string, i: nat)
    requires Occurs(s, sep, i) && forall k: nat | k < i :: !Occurs(s, sep, k)
    ensures Index(s, sep) == i
  {
  }

  lemma FirstSeparator(first: string, rest: string, sep: string)
    requires Free(first, sep) && sep in {",", "->"}
    ensures Index(first + sep + rest, sep) == |first|
  {
    var s := first + sep + rest;
    forall k: nat | k < |first| ensures !Occurs(s, sep, k) {
      if sep == "," {
        OccursComma(s, k);
        OccursComma(first, k);
      } else {
        OccursArrow(s, k);
        OccursArrow(first, k);
      }
      assert !Occurs(first, sep, k);
    }
    assert Occurs(s, sep, |first|);
    IndexIs(s, sep, |first|);
  }

  lemma SeparatorApart(first: string, rest: string, sep: string)
    ensures (first + sep + rest)[..|first|] == first && (first + sep + rest)[|first| + |sep|..] == rest
  {
  }

  lemma {:induction false} SplitJoin(items: seq<string>, sep: string)
    requires items != [] && AllFree(items, sep) && sep in {",", "->"}
    ensures Split(Join(items, sep), sep) == items
    decreases |items|
  {
    hide Index, Occurs, Free;
    var first := items[0];
    if |items| == 1 {
      NotFound(first, sep);
      assert Join(items, sep) == first && items == [first];
    } else {
      var rest := Join(items[1..], sep);
      FirstSeparator(first, rest, sep);
      SeparatorApart(first, rest, sep);
      SplitJoin(items[1..], sep);
      assert items == [first] + items[1..];
    }
  }

  lemma {:induction false} JoinSplit(s: string, sep: string)
    requires sep != ""
    ensures Join(Split(s, sep), sep) == s
    decreases |s|
  {
    var i := Index(s, sep);
    if i >= 0 {
      var rest := s[i + |sep|..];
      JoinSplit(rest, sep);
      PiecesFree(rest, sep);
      assert ([s[..i]] + Split(rest, sep))[1..] == Split(rest, sep);
      CutApart(s, i, sep);
    }
  }

  lemma CutApart(s: string, i: nat, sep: string)
    requires Occurs(s, sep, i)
    ensures s == s[..i] + sep + s[i + |sep|..]
  {
    OccursIsSlice(s, sep, i);
  }

  // A name, or nothing, with blanks around it.
  datatype Piece = Piece(before: string, name: string, after: string)

  // What stands between two commas: pieces with arrows between them, and blanks around the whole.
  datatype Item = Item(before: string, pieces: seq<Piece>, after: string)

  function PieceTexts(pieces: seq<Piece>): seq<string> {
    seq(|pieces|, i requires 0 <= i < |pieces| => pieces[i].before + pieces[i].name + pieces[i].after)
  }

  function Core(pieces: seq<Piece>): string {
    Join(PieceTexts(pieces), "->")
  }

  function Text(item: Item): string {
    item.before + Core(item.pieces) + item.after
  }

  ghost predicate ProperPiece(p: Piece) {
    Blank(p.before) && Blank(p.after) && (p.name == "" || WellFormed(p.name))
  }

  ghost predicate Proper(item: Item) {
    && Blank(item.before) && Blank(item.after) && Trimmed(Core(item.pieces))
    && item.pieces != [] && forall i | 0 <= i < |item.pieces| :: ProperPiece(item.pieces[i])
  }

  /** The names of the pieces that have one. */
  function NamesIn(pieces: seq<Piece>): seq<string> {
    if pieces == [] then []
    else
      var last := pieces[|pieces| - 1];
      NamesIn(pieces[..|pieces| - 1]) + if last.name != "" then [last.name] else []
  }

  /** What the items say, later ones first: an item of two names maps the one to the other, an item of
      fewer or more says nothing. */
  function Meaning(items: seq<Item>): Names {
    if items == [] then map[]
    else
      var m := Meaning(items[..|items| - 1]);
      var names := NamesIn(items[|items| - 1].pieces);
      if |names| == 2 then m[names[0] := names[1]] else m
  }

  function Texts(items: seq<Item>): seq<string> {
    seq(|items|, i requires 0 <= i < |items| => Text(items[i]))
  }

  lemma NotFound(s: string, sep: string)
    requires Free(s, sep)
    ensures Index(s, sep) < 0
  {
  }

  /** A blank-padded name contains no separator the name does not contain. */
  lemma PaddedFree(b1: string, name: string, b2: string, sep: string)
    requires Blank(b1) && Blank(b2) && Free(name, sep) && sep in {",", "->"}
    ensures Free(b1 + name + b2, sep)
  {
    var s := b1 + name + b2;
    assert forall m | 0 <= m < |b1| :: s[m] == b1[m];
    assert forall m | |b1| + |name| <= m < |s| :: s[m] == b2[m - |b1| - |name|];
    forall k: nat ensures !Occurs(s, sep, k) {
      if Occurs(s, sep, k) {
        var last := k + |sep| - 1;
        assert s[k] == sep[0] && s[last] == sep[|sep| - 1];
        assert |b1| <= k && last < |b1| + |name|;
        assert Occurs(name, sep, k - |b1|);
      }
    }
  }

  /** The first arrow of a well-formed pair is the one between the names. */
  lemma SplitPair(left: string, right: string)
    requires Free(left, "->") && Free(right, "->")
    ensures Split(left + "->" + right, "->") == [left, right]
  {
    assert Join([left, right], "->") == left + "->" + right by {
      assert [left, right][1..] == [right];
    }
    SplitJoin([left, right], "->");
  }

  lemma PieceFree(p: Piece, sep: string)
    requires ProperPiece(p) && sep in {",", "->"}
    ensures Free(p.before + p.name + p.after, sep)
  {
    hide IsSpace;
    PaddedFree(p.before, p.name, p.after, sep);
  }

  lemma PieceTextsFree(pieces: seq<Piece>, sep: string)
    requires sep in {",", "->"} && forall i | 0 <= i < |pieces| :: ProperPiece(pieces[i])
    ensures AllFree(PieceTexts(pieces), sep)
  {
    hide ProperPiece, Free;
    forall i | 0 <= i < |pieces| ensures Free(PieceTexts(pieces)[i], sep) {
      PieceFree(pieces[i], sep);
    }
  }

  lemma {:induction false} PartsAreNames(pieces: seq<Piece>)
    requires forall i | 0 <= i < |pieces| :: ProperPiece(pieces[i])
    ensures TrimmedParts(PieceTexts(pieces)) == NamesIn(pieces)
    decreases |pieces|
  {
    hide IsSpace, Trim, Free;
    if pieces != [] {
      var n := |pieces| - 1;
      var last := pieces[n];
      assert ProperPiece(last);
      TrimPad(last.before, last.name, last.after);
      PartsAreNames(pieces[..n]);
      assert PieceTexts(pieces)[..n] == PieceTexts(pieces[..n]);
    }
  }

  /** An item, trimmed and taken apart, gives its names. */
  lemma ItemParts(item: Item)
    requires Proper(item)
    ensures Trim(Text(item)) == Core(item.pieces)
    ensures TrimmedParts(Split(Core(item.pieces), "->")) == NamesIn(item.pieces)
  {
    hide IsSpace, Trim, Free, ProperPiece, Split, TrimmedParts;
    TrimPad(item.before, Core(item.pieces), item.after);
    PieceTextsFree(item.pieces, "->");
    SplitJoin(PieceTexts(item.pieces), "->");
    PartsAreNames(item.pieces);
  }

  lemma ArrowBetween(a: string, b: string)
    requires Free(a, ",") && Free(b, ",")
    ensures Free(a + "->" + b, ",")
  {
    var s := a + "->" + b;
    forall k: nat ensures !Occurs(s, ",", k) {
      OccursComma(s, k);
      if k < |a| {
        OccursComma(a, k);
        assert !Occurs(a, ",", k);
      } else if |a| + 2 <= k < |s| {
        OccursComma(b, k - |a| - 2);
        assert s[k] == b[k - |a| - 2] && !Occurs(b, ",", k - |a| - 2);
      }
    }
  }

  lemma {:induction false} JoinedFree(texts: seq<string>)
    requires AllFree(texts, ",")
    ensures Free(Join(texts, "->"), ",")
    decreases |texts|
  {
    if |texts| > 1 {
      JoinedFree(texts[1..]);
      ArrowBetween(texts[0], Join(texts[1..], "->"));
    }
  }

  lemma CommaFree(item: Item)
    requires Proper(item)
    ensures Free(Text(item), ",")
  {
    hide IsSpace, Free, ProperPiece;
    PieceTextsFree(item.pieces, ",");
    JoinedFree(PieceTexts(item.pieces));
    PaddedFree(item.before, Core(item.pieces), item.after, ",");
  }

  lemma AddItemsAppend(items: seq<string>, item: string)
    ensures AddItems(items + [item]) == AddItem(AddItems(items), item)
  {
    assert (items + [item])[..|items + [item]| - 1] == items;
  }

  lemma TextsNext(items: seq<Item>, core: string)
    requires items != [] && Trim(Text(items[|items| - 1])) == core
    ensures TrimmedParts(Texts(items)) == TrimmedParts(Texts(items[..|items| - 1])) + if core != "" then [core] else []
  {
    hide Text, Trim;
    var n := |items| - 1;
    assert Texts(items)[..n] == Texts(items[..n]) && Texts(items)[n] == Text(items[n]);
  }

  lemma {:induction false} ItemByItem(items: seq<Item>)
    requires forall item | item in items :: Proper(item)
    ensures AddItems(TrimmedParts(Texts(items))) == Meaning(items)
    decreases |items|
  {
    hide Proper, Text, Core, Texts, Trim, TrimmedParts, Split, NamesIn, AddItems;
    if items == [] {
      NoItems();
    } else {
      var n := |items| - 1;
      var last := items[n];
      assert last in items;
      ItemByItem(items[..n]);
      ItemParts(last);
      TextsNext(items, Core(last.pieces));
      var parts := TrimmedParts(Texts(items[..n]));
      if Core(last.pieces) == "" {
        EmptyItem();
        assert parts + [] == parts;
      } else {
        AddItemsAppend(parts, Core(last.pieces));
      }
    }
  }

  lemma NoItems()
    ensures AddItems(TrimmedParts(Texts([]))) == map[]
  {
  }

  lemma EmptyItem()
    ensures TrimmedParts(Split("", "->")) == []
  {
    assert Split("", "->") == [""] && [""][..0] == [];
  }

  /** Blanks around names, arrows and commas, empty items, and items of other than two names change
      nothing: the text means what its pairs say. */
  lemma ParseIsMeaning(items: seq<Item>)
    requires forall item | item in items :: Proper(item)
    ensures Parsed(Join(Texts(items), ",")) == Meaning(items)
  {
    if items == [] {
      assert Split("", ",") == [""];
      assert [""][..0] == [];
    } else {
      forall i | 0 <= i < |items| ensures Free(Texts(items)[i], ",") {
        assert items[i] in items;
        CommaFree(items[i]);
      }
      SplitJoin(Texts(items), ",");
      ItemByItem(items);
    }
  }

  lemma PieceOf(text: string) returns (p: Piece)
    requires Free(text, ",") && Free(text, "->")
    ensures ProperPiece(p) && p.before + p.name + p.after == text
  {
    var a, b := TrimIsSlice(text);
    p := Piece(text[..a], text[a..b], text[b..]);
    SliceFree(text, a, b, ",");
    SliceFree(text, a, b, "->");
  }

  lemma {:induction false} PiecesOf(texts: seq<string>) returns (pieces: seq<Piece>)
    requires AllFree(texts, ",") && AllFree(texts, "->")
    ensures PieceTexts(pieces) == texts && forall i | 0 <= i < |pieces| :: ProperPiece(pieces[i])
    decreases |texts|
  {
    hide Free, ProperPiece;
    pieces := [];
    if texts != [] {
      var n := |texts| - 1;
      var rest := PiecesOf(texts[..n]);
      var p := PieceOf(texts[n]);
      pieces := rest + [p];
      assert PieceTexts(pieces)[..n] == PieceTexts(rest);
    }
  }

  lemma ItemOf(text: string) returns (item: Item)
    requires Free(text, ",")
    ensures Proper(item) && Text(item) == text
  {
    hide IsSpace, Free, Occurs, Index, Split, Join, ProperPiece;
    var a, b := TrimIsSlice(text);
    var core := text[a..b];
    SliceFree(text, a, b, ",");
    PiecesFree(core, "->");
    PiecesFreeOf(core, "->", ",");
    var pieces := PiecesOf(Split(core, "->"));
    JoinSplit(core, "->");
    item := Item(text[..a], pieces, text[b..]);
  }

  lemma {:induction false} ItemsOf(texts: seq<string>) returns (items: seq<Item>)
    requires AllFree(texts, ",")
    ensures Texts(items) == texts && forall item | item in items :: Proper(item)
    decreases |texts|
  {
    hide Free, Proper, Text;
    items := [];
    if texts != [] {
      var n := |texts| - 1;
      var rest := ItemsOf(texts[..n]);
      var item := ItemOf(texts[n]);
      items := rest + [item];
      assert Texts(items)[..n] == Texts(rest);
    }
  }

  /** Every text is a list of such items, so ParseIsMeaning says what every text means. */
  lemma EveryTextHasMeaning(raw: string) returns (items: seq<Item>)
    ensures (forall item | item in items :: Proper(item)) && Join(Texts(items), ",") == raw
    ensures Parsed(raw) == Meaning(items)
  {
    hide Free, Proper, Text, Split, Join;
    PiecesFree(raw, ",");
    items := ItemsOf(Split(raw, ","));
    JoinSplit(raw, ",");
    ParseIsMeaning(items);
  }

  // ---------------------------------------------------------------- round trip

  /** The documented form "a->b,c->d" of a list of pairs. */
  function Printed(pairs: seq<(string, string)>): string {
    Join(seq(|pairs|, i requires 0 <= i < |pairs| => pairs[i].0 + "->" + pairs[i].1), ",")
  }

  function MapOf(pairs: seq<(string, string)>): Names {
    if pairs == [] then map[]
    else MapOf(pairs[..|pairs| - 1])[pairs[|pairs| - 1].0 := pairs[|pairs| - 1].1]
  }

  predicate DistinctKeys(pairs: seq<(string, string)>) {
    forall i, k | 0 <= i < k < |pairs| :: pairs[i].0 != pairs[k].0
  }

  lemma {:induction false} MapOfHolds(pairs: seq<(string, string)>)
    requires DistinctKeys(pairs)
    ensures forall i | 0 <= i < |pairs| :: pairs[i].0 in MapOf(pairs) && MapOf(pairs)[pairs[i].0] == pairs[i].1
    decreases |pairs|
  {
    if pairs != [] {
      MapOfHolds(pairs[..|pairs| - 1]);
    }
  }

  function PairItem(source: string, target: string): Item {
    Item("", [Piece("", source, ""), Piece("", target, "")], "")
  }

  lemma PairText(source: string, target: string)
    ensures Text(PairItem(source, target)) == source + "->" + target
  {
    var texts := PieceTexts(PairItem(source, target).pieces);
    assert texts[0] == source && texts[1] == target;
    assert texts[1..] == [target] && Join([target], "->") == target;
  }

  lemma PairNames(source: string, target: string)
    requires source != "" && target != ""
    ensures NamesIn(PairItem(source, target).pieces) == [source, target]
  {
    var pieces := PairItem(source, target).pieces;
    assert pieces[..1] == [Piece("", source, "")] && pieces[..1][..0] == [];
    assert NamesIn(pieces[..1]) == [source];
  }

  lemma PairProper(source: string, target: string)
    requires WellFormed(source) && WellFormed(target)
    ensures Proper(PairItem(source, target))
  {
    PairText(source, target);
    var item := PairItem(source, target);
    assert Text(item) == Core(item.pieces);
    hide Core, Text, IsSpace, Free;
    var core := source + "->" + target;
    assert core[0] == source[0] && core[|core| - 1] == target[|target| - 1];
  }

  function AsItems(pairs: seq<(string, string)>): seq<Item> {
    seq(|pairs|, i requires 0 <= i < |pairs| => PairItem(pairs[i].0, pairs[i].1))
  }

  lemma {:induction false} MeaningOfPairs(pairs: seq<(string, string)>)
    requires forall i | 0 <= i < |pairs| :: pairs[i].0 != "" && pairs[i].1 != ""
    ensures Meaning(AsItems(pairs)) == MapOf(pairs)
    decreases |pairs|
  {
    hide NamesIn, PairItem;
    if pairs != [] {
      var n := |pairs| - 1;
      MeaningOfPairs(pairs[..n]);
      PairNames(pairs[n].0, pairs[n].1);
      assert AsItems(pairs)[..n] == AsItems(pairs[..n]);
    }
  }

  lemma PrintedIsJoin(pairs: seq<(string, string)>)
    ensures Printed(pairs) == Join(Texts(AsItems(pairs)), ",")
  {
    hide Text, PairItem, Join;
    var texts := seq(|pairs|, i requires 0 <= i < |pairs| => pairs[i].0 + "->" + pairs[i].1);
    forall i | 0 <= i < |pairs| ensures texts[i] == Texts(AsItems(pairs))[i] {
      PairText(pairs[i].0, pairs[i].1);
    }
    assert texts == Texts(AsItems(pairs));
  }

  lemma PairsProper(pairs: seq<(string, string)>)
    requires forall i | 0 <= i < |pairs| :: WellFormed(pairs[i].0) && WellFormed(pairs[i].1)
    ensures forall item | item in AsItems(pairs) :: Proper(item)
    ensures forall i | 0 <= i < |pairs| :: pairs[i].0 != "" && pairs[i].1 != ""
  {
    forall i | 0 <= i < |pairs| ensures pairs[i].0 != "" && pairs[i].1 != "" {
      assert WellFormed(pairs[i].0) && WellFormed(pairs[i].1);
    }
    hide WellFormed, PairItem, Proper;
    forall i | 0 <= i < |pairs| ensures Proper(AsItems(pairs)[i]) {
      PairProper(pairs[i].0, pairs[i].1);
    }
  }

  /** Printing a map, its entries in any order, and parsing the text gives the map back exactly
      when all its names are trimmed, non-empty, and free of commas and arrows.  The empty map prints
      as "", which ParseModelMap answers with nil; to MapModel the two are the same. */
  lemma RoundTripIff(pairs: seq<(string, string)>)
    requires DistinctKeys(pairs)
    ensures Parsed(Printed(pairs)) == MapOf(pairs)
            <==> forall i | 0 <= i < |pairs| :: WellFormed(pairs[i].0) && WellFormed(pairs[i].1)
  {
    hide WellFormed, Proper, Parsed, Printed, Meaning, Join, AsItems;
    if forall i | 0 <= i < |pairs| :: WellFormed(pairs[i].0) && WellFormed(pairs[i].1) {
      PairsProper(pairs);
      ParseIsMeaning(AsItems(pairs));
      MeaningOfPairs(pairs);
      PrintedIsJoin(pairs);
    } else {
      MapOfHolds(pairs);
      ParsedWellFormed(Printed(pairs));
    }
  }

  /** Names printed, parsed and looked up are mapped as the list says, an empty list included. */
  lemma PrintedLookup(pairs: seq<(string, string)>, m: Option<Names>, model: string)
    requires forall i | 0 <= i < |pairs| :: WellFormed(pairs[i].0) && WellFormed(pairs[i].1)
    requires var raw := Printed(pairs); m == if raw == "" then None else Some(Parsed(raw))
    ensures MapModel(m, model) == if model in MapOf(pairs) then MapOf(pairs)[model] else model
  {
    hide WellFormed, Proper, Join, Parsed, Meaning, AsItems;
    PrintedIsJoin(pairs);
    PairsProper(pairs);
    MeaningOfPairs(pairs);
    MapModelIsLookup(AsItems(pairs), m, model);
  }

  /** MapModel is lookup in what the text means, or the identity. */
  lemma MapModelIsLookup(items: seq<Item>, m: Option<Names>, model: string)
    requires forall item | item in items :: Proper(item)
    requires var raw := Join(Texts(items), ","); m == if raw == "" then None else Some(Parsed(raw))
    ensures MapModel(m, model) == if model in Meaning(items) then Meaning(items)[model] else model
  {
    ParseIsMeaning(items);
    if Join(Texts(items), ",") == "" {
      assert Split("", ",") == [""];
      assert [""][..0] == [];
      assert Parsed("") == map[];
    }
  }
}
