/**
 * `formatToHtml` of the chat modal: a line-oriented converter from a small
 * markdown subset of a bot reply to the HTML the modal injects.
 *
 * The text is HTML-escaped, split at `\n`, each line has its `**bold**`
 * spans rewritten, and each line then becomes exactly one block: a list item
 * for `* ` lines (a run of them wrapped in one `<ul>`), an `h3`/`h4`/`h5`
 * heading for one to three `#`, a `•` paragraph for `- ` lines, else a plain
 * paragraph. The regular expressions of the source are written out as
 * functions on code units.
 */
module ChatFormat {
  import opened JsString

  // ---------------------------------------------------------------------
  // esc
  // ---------------------------------------------------------------------

  /** `s.replace(/c/g, rep)` for a single unit `c`. */
  function ReplaceAll(s: string, c: char, rep: string): (r: string)
    ensures forall x :: x in r ==> (x in s && x != c) || x in rep
    decreases |s|
  {
    if s == [] then [] else (if s[0] == c then rep else [s[0]]) + ReplaceAll(s[1..], c, rep)
  }

  /** `esc`: `&` first, then `<` and `>`. */
  function Esc(s: string): (r: string)
    ensures '<' !in r && '>' !in r
  {
    ReplaceAll(ReplaceAll(ReplaceAll(s, '&', "&amp;"), '<', "&lt;"), '>', "&gt;")
  }

  lemma {:induction false} ReplaceAllAppend(a: string, b: string, c: char, rep: string)
    ensures ReplaceAll(a + b, c, rep) == ReplaceAll(a, c, rep) + ReplaceAll(b, c, rep)
    decreases |a|
  {
    if a != [] {
      ReplaceAllAppend(a[1..], b, c, rep);
      assert (a + b)[1..] == a[1..] + b;
    } else {
      assert a + b == b;
    }
  }

  lemma {:induction false} ReplaceAllAbsent(s: string, c: char, rep: string)
    requires forall i :: 0 <= i < |s| ==> s[i] != c
    ensures ReplaceAll(s, c, rep) == s
    decreases |s|
  {
    if s != [] {
      ReplaceAllAbsent(s[1..], c, rep);
      assert [s[0]] + s[1..] == s;
    }
  }

  /** What `esc` makes of one unit. */
  function EscapeUnit(c: char): string {
    if c == '&' then "&amp;" else if c == '<' then "&lt;" else if c == '>' then "&gt;" else [c]
  }

  function EscapeEach(s: string): string
    decreases |s|
  {
    if s == [] then [] else EscapeUnit(s[0]) + EscapeEach(s[1..])
  }

  /** Because `&` is replaced first, the three passes of `esc` act like one
      pass that escapes each unit on its own: no entity is escaped twice. */
  lemma {:induction false} EscIsPerUnit(s: string)
    ensures Esc(s) == EscapeEach(s)
    decreases |s|
  {
    if s != [] {
      var c, t := s[0], s[1..];
      assert s == [c] + t;
      var r1 := ReplaceAll([c], '&', "&amp;");
      var r2 := ReplaceAll(r1, '<', "&lt;");
      ReplaceAllAppend([c], t, '&', "&amp;");
      ReplaceAllAppend(r1, ReplaceAll(t, '&', "&amp;"), '<', "&lt;");
      ReplaceAllAppend(r2, ReplaceAll(ReplaceAll(t, '&', "&amp;"), '<', "&lt;"), '>', "&gt;");
      EscOfUnit(c);
      EscIsPerUnit(t);
    }
  }

  lemma EscOfUnit(c: char)
    ensures ReplaceAll(ReplaceAll(ReplaceAll([c], '&', "&amp;"), '<', "&lt;"), '>', "&gt;") == EscapeUnit(c)
  {
    ReplaceOne(c, '&', "&amp;");
    if c == '&' {
      ReplaceAllAbsent("&amp;", '<', "&lt;");
      ReplaceAllAbsent("&amp;", '>', "&gt;");
    } else {
      ReplaceOne(c, '<', "&lt;");
      if c == '<' {
        ReplaceAllAbsent("&lt;", '>', "&gt;");
      } else {
        ReplaceOne(c, '>', "&gt;");
      }
    }
  }

  lemma ReplaceOne(c: char, x: char, rep: string)
    ensures ReplaceAll([c], x, rep) == if c == x then rep else [c]
  {
    assert [c][1..] == [];
    var r := if c == x then rep else [c];
    assert r + [] == r;
  }

  /** Reading the three entities back, left to right. */
  function Unescape(s: string): string
    decreases |s|
  {
    if s == [] then []
    else if |s| >= 5 && s[..5] == "&amp;" then "&" + Unescape(s[5..])
    else if |s| >= 4 && s[..4] == "&lt;" then "<" + Unescape(s[4..])
    else if |s| >= 4 && s[..4] == "&gt;" then ">" + Unescape(s[4..])
    else [s[0]] + Unescape(s[1..])
  }

  lemma UnescapeUnit(c: char, t: string)
    ensures Unescape(EscapeUnit(c) + t) == [c] + Unescape(t)
  {
    if c == '&' {
      UnescapeAmp(t);
    } else if c == '<' || c == '>' {
      UnescapeAngle(c, t);
    } else {
      UnescapeOther(c, t);
    }
  }

  lemma UnescapeAmp(t: string)
    ensures Unescape("&amp;" + t) == "&" + Unescape(t)
  {
    var s := "&amp;" + t;
    assert s[..5] == "&amp;" && s[5..] == t;
  }

  /** The two four-unit entities, `&lt;` and `&gt;`, read back. */
  lemma UnescapeAngle(c: char, t: string)
    requires c == '<' || c == '>'
    ensures Unescape(EscapeUnit(c) + t) == [c] + Unescape(t)
  {
    var s := EscapeUnit(c) + t;
    assert s[1] == (if c == '<' then 'l' else 'g');
    assert s[..4] == EscapeUnit(c) && s[4..] == t;
  }

  lemma UnescapeOther(c: char, t: string)
    requires c != '&'
    ensures Unescape([c] + t) == [c] + Unescape(t)
  {
    var s := [c] + t;
    assert s[0] == c && s[1..] == t;
  }

  /** Unescaping the three entities gives back the original text. */
  lemma {:induction false} UnescapeEsc(s: string)
    ensures Unescape(Esc(s)) == s
  {
    EscIsPerUnit(s);
    UnescapeEachUnit(s);
  }

  lemma {:induction false} UnescapeEachUnit(s: string)
    ensures Unescape(EscapeEach(s)) == s
    decreases |s|
  {
    if s != [] {
      UnescapeUnit(s[0], EscapeEach(s[1..]));
      UnescapeEachUnit(s[1..]);
      assert [s[0]] + s[1..] == s;
    }
  }

  // ---------------------------------------------------------------------
  // split(/\n/)
  // ---------------------------------------------------------------------

  /** `s.split(/\n/)`; `"".split(/\n/)` is `[""]`. */
  function Lines(s: string): (ls: seq<string>)
    ensures |ls| >= 1
    ensures forall i :: 0 <= i < |ls| ==> '\n' !in ls[i]
    decreases |s|
  {
    if s == [] then [""]
    else
      var rest := Lines(s[1..]);
      if s[0] == '\n' then [""] + rest else [[s[0]] + rest[0]] + rest[1..]
  }

  function JoinLines(ls: seq<string>): string
    requires |ls| >= 1
    decreases |ls|
  {
    if |ls| == 1 then ls[0] else ls[0] + "\n" + JoinLines(ls[1..])
  }

  /** Splitting loses nothing: joining the lines with `\n` gives the text back. */
  lemma {:induction false} JoinLinesOfLines(s: string)
    ensures JoinLines(Lines(s)) == s
    decreases |s|
  {
    if s != [] {
      var rest := Lines(s[1..]);
      JoinLinesOfLines(s[1..]);
      if s[0] == '\n' {
        assert Lines(s)[1..] == rest;
      } else if |rest| == 1 {
        assert [s[0]] + s[1..] == s;
      } else {
        var ls := Lines(s);
        assert ls[1..] == rest[1..];
        assert JoinLines(rest) == rest[0] + "\n" + JoinLines(rest[1..]);
        assert [s[0]] + s[1..] == s;
      }
    }
  }

  /** A text that starts with a newline-free part `a`: that part opens the first line. */
  lemma {:induction false} LinesPrefix(a: string, b: string)
    requires '\n' !in a
    ensures Lines(a + b) == [a + Lines(b)[0]] + Lines(b)[1..]
    decreases |a|
  {
    if a != [] {
      assert (a + b)[1..] == a[1..] + b;
      LinesPrefix(a[1..], b);
      assert [a[0]] + (a[1..] + Lines(b)[0]) == a + Lines(b)[0];
    } else {
      assert a + b == b;
      assert a + Lines(b)[0] == Lines(b)[0];
      assert [Lines(b)[0]] + Lines(b)[1..] == Lines(b);
    }
  }

  /** Splitting undoes joining, for lines without `\n`. */
  lemma {:induction false} LinesOfJoinLines(ls: seq<string>)
    requires |ls| >= 1
    requires forall i :: 0 <= i < |ls| ==> '\n' !in ls[i]
    ensures Lines(JoinLines(ls)) == ls
    decreases |ls|
  {
    if |ls| == 1 {
      assert ls[0] + "" == ls[0];
      LinesPrefix(ls[0], "");
      assert Lines("") == [""];
      assert Lines(ls[0]) == [ls[0]];
      assert [ls[0]] == ls;
    } else {
      LinesOfJoinLines(ls[1..]);
      var b := "\n" + JoinLines(ls[1..]);
      assert JoinLines(ls) == ls[0] + b;
      LinesPrefix(ls[0], b);
      assert b[1..] == JoinLines(ls[1..]);
      assert Lines(b) == [""] + ls[1..];
      assert ls[0] + "" == ls[0];
      assert [ls[0]] + ls[1..] == ls;
    }
  }

  /** The lines of the escaped text are the escaped lines of the text. */
  ghost predicate EscapeKeepsLines(s: string) {
    && |Lines(EscapeEach(s))| == |Lines(s)|
    && forall i :: 0 <= i < |Lines(s)| ==> Lines(EscapeEach(s))[i] == EscapeEach(Lines(s)[i])
  }

  /** Escaping never adds or removes a `\n`: the lines of the escaped text are
      the escaped lines of the text. */
  lemma {:induction false} LinesOfEscape(s: string)
    ensures |Lines(EscapeEach(s))| == |Lines(s)|
    ensures forall i :: 0 <= i < |Lines(s)| ==> Lines(EscapeEach(s))[i] == EscapeEach(Lines(s)[i])
    decreases |s|
  {
    if s == [] {
      assert EscapeEach(s) == [];
    } else {
      LinesOfEscape(s[1..]);
      if s[0] == '\n' {
        EscapeNewline(s);
      } else {
        EscapeInLine(s);
      }
    }
  }

  lemma EscapeNewline(s: string)
    requires s != [] && s[0] == '\n' && EscapeKeepsLines(s[1..])
    ensures EscapeKeepsLines(s)
  {
    var et := EscapeEach(s[1..]);
    assert EscapeEach(s) == "\n" + et;
    assert ("\n" + et)[1..] == et;
    assert Lines(EscapeEach(s)) == [""] + Lines(et);
    assert Lines(s) == [""] + Lines(s[1..]);
  }

  lemma EscapeInLine(s: string)
    requires s != [] && s[0] != '\n' && EscapeKeepsLines(s[1..])
    ensures EscapeKeepsLines(s)
  {
    var c, t := s[0], s[1..];
    var et := EscapeEach(t);
    var lt, le := Lines(t), Lines(et);
    assert EscapeEach(s) == EscapeUnit(c) + et;
    assert '\n' !in EscapeUnit(c);
    LinesPrefix(EscapeUnit(c), et);
    assert Lines(s) == [[c] + lt[0]] + lt[1..];
    EscapeEachAppend([c], lt[0]);
    assert EscapeEach([c]) == EscapeUnit(c) by {
      assert [c][1..] == [];
    }
    forall i | 0 <= i < |Lines(s)|
      ensures Lines(EscapeEach(s))[i] == EscapeEach(Lines(s)[i])
    {
      if i > 0 {
        assert Lines(s)[i] == lt[i];
        assert Lines(EscapeEach(s))[i] == le[i];
      }
    }
  }

  lemma {:induction false} EscapeEachAppend(a: string, b: string)
    ensures EscapeEach(a + b) == EscapeEach(a) + EscapeEach(b)
    decreases |a|
  {
    if a != [] {
      assert (a + b)[1..] == a[1..] + b;
      EscapeEachAppend(a[1..], b);
    } else {
      assert a + b == b;
    }
  }

  // ---------------------------------------------------------------------
  // **bold**
  // ---------------------------------------------------------------------

  /** Where the lazy `(.*?)\*\*` that starts at `k` closes: the first `**`
      at or after `k`, provided no line terminator comes before it (`.` does
      not match one). */
  function CloseAt(s: string, k: nat): (r: Option<nat>)
    requires k <= |s|
    ensures r.Some? ==> k <= r.value && r.value + 2 <= |s| && s[r.value] == '*' && s[r.value + 1] == '*'
    ensures r.Some? ==> forall i :: k <= i < r.value ==> !IsLineTerminator(s[i])
    decreases |s| - k
  {
    if k + 2 > |s| then None
    else if s[k] == '*' && s[k + 1] == '*' then Some(k)
    else if IsLineTerminator(s[k]) then None
    else CloseAt(s, k + 1)
  }

  /** The tags the bold rewrite puts around the text between `**` pairs. */
  const StrongOpen: string := "<strong>"
  const StrongClose: string := "</strong>"

  /** `ln.replace(/\*\*(.*?)\*\*\/g, '<strong>$1</strong>')`. */
  function Bold(s: string): string
    decreases |s|
  {
    match BoldAt(s)
    case Some(k) => StrongOpen + s[2..k] + StrongClose + Bold(s[k + 2..])
    case None => if s == [] then [] else [s[0]] + Bold(s[1..])
  }

  /** Where the `**...**` that starts `s` closes, if one does. */
  function BoldAt(s: string): (r: Option<nat>)
    ensures r.Some? ==> 2 <= r.value && r.value + 2 <= |s|
    ensures r.Some? ==> s[0] == '*' && s[1] == '*' && s[r.value] == '*' && s[r.value + 1] == '*'
  {
    if |s| >= 2 && s[0] == '*' && s[1] == '*' then CloseAt(s, 2) else None
  }

  /** Turning the tags back into `**`. */
  function Unbold(s: string): string
    decreases |s|
  {
    if s == [] then []
    else if |s| >= 8 && s[..8] == StrongOpen then "**" + Unbold(s[8..])
    else if |s| >= 9 && s[..9] == StrongClose then "**" + Unbold(s[9..])
    else [s[0]] + Unbold(s[1..])
  }

  lemma {:induction false} UnboldPlain(p: string, t: string)
    requires '<' !in p
    ensures Unbold(p + t) == p + Unbold(t)
    decreases |p|
  {
    if p != [] {
      assert (p + t)[0] == p[0] && (p + t)[1..] == p[1..] + t;
      UnboldFirst(p + t);
      NoLtIn(p, 1, |p|);
      UnboldPlain(p[1..], t);
      assert [p[0]] + p[1..] == p;
    } else {
      assert p + t == t;
    }
  }

  /** A text that does not start with `<` starts no tag. */
  lemma UnboldFirst(s: string)
    requires s != [] && s[0] != '<'
    ensures Unbold(s) == [s[0]] + Unbold(s[1..])
  {
    if |s| >= 8 {
      assert s[..8][0] == s[0];
    }
    if |s| >= 9 {
      assert s[..9][0] == s[0];
    }
  }

  lemma UnboldTagged(mid: string, b: string)
    requires '<' !in mid
    ensures Unbold(StrongOpen + mid + StrongClose + b) == "**" + mid + "**" + Unbold(b)
  {
    var close := StrongClose + b;
    UnboldOpenTag(mid + close);
    UnboldPlain(mid, close);
    UnboldCloseTag(b);
    Assoc(StrongOpen + mid, StrongClose, b);
    Assoc(StrongOpen, mid, close);
    Assoc("**" + mid, "**", Unbold(b));
    Assoc("**", mid, "**" + Unbold(b));
  }

  lemma UnboldOpenTag(t: string)
    ensures Unbold(StrongOpen + t) == "**" + Unbold(t)
  {
    var s := StrongOpen + t;
    assert s[..8] == StrongOpen && s[8..] == t;
  }

  lemma UnboldCloseTag(t: string)
    ensures Unbold(StrongClose + t) == "**" + Unbold(t)
  {
    var s := StrongClose + t;
    assert s[..8] != StrongOpen by {
      assert s[1] == '/';
    }
    assert s[..9] == StrongClose && s[9..] == t;
  }

  /** A suffix of a text without `<` has none either. */
  lemma NoLtIn(s: string, i: nat, j: nat)
    requires '<' !in s && i <= j <= |s|
    ensures '<' !in s[i..j]
  {
    forall k | 0 <= k < j - i
      ensures s[i..j][k] != '<'
    {
      assert s[i..j][k] == s[i + k];
    }
  }

  lemma UnboldBoldStep(s: string)
    requires s != [] && BoldAt(s).None?
    requires '<' !in s
    requires Unbold(Bold(s[1..])) == s[1..]
    ensures Unbold(Bold(s)) == s
  {
    assert Bold(s) == [s[0]] + Bold(s[1..]);
    UnboldPlain([s[0]], Bold(s[1..]));
    assert [s[0]] + s[1..] == s;
  }

  /** On escaped text, which holds no `<`, the bold rewrite loses nothing:
      putting `**` back for the tags gives the line back. */
  lemma {:induction false} UnboldBold(s: string)
    requires '<' !in s
    ensures Unbold(Bold(s)) == s
    decreases |s|
  {
    if BoldAt(s).Some? {
      var k := BoldAt(s).value;
      NoLtIn(s, k + 2, |s|);
      NoLtIn(s, 2, k);
      UnboldBold(s[k + 2..]);
      UnboldBoldSpan(s, k);
    } else if s != [] {
      NoLtIn(s, 1, |s|);
      UnboldBold(s[1..]);
      UnboldBoldStep(s);
    }
  }

  lemma UnboldBoldSpan(s: string, k: nat)
    requires BoldAt(s) == Some(k)
    requires '<' !in s[2..k]
    requires Unbold(Bold(s[k + 2..])) == s[k + 2..]
    ensures Unbold(Bold(s)) == s
  {
    var mid, rest := s[2..k], s[k + 2..];
    BoldSpan(s, k);
    UnboldTagged(mid, Bold(rest));
    SpanShape(s, k);
    JsString.SplitAt(s, k + 2);
  }

  lemma BoldSpan(s: string, k: nat)
    requires BoldAt(s) == Some(k)
    ensures Bold(s) == StrongOpen + s[2..k] + StrongClose + Bold(s[k + 2..])
  {
  }

  lemma SpanShape(s: string, k: nat)
    requires 2 <= k && k + 2 <= |s|
    requires s[0] == '*' && s[1] == '*' && s[k] == '*' && s[k + 1] == '*'
    ensures s[..k + 2] == "**" + s[2..k] + "**"
  {
    assert s[..2] == "**";
    assert s[k..k + 2] == "**";
    assert s[..k + 2] == s[..2] + s[2..k] + s[k..k + 2];
  }

  // ---------------------------------------------------------------------
  // Line classification
  // ---------------------------------------------------------------------

  datatype Block =
    | Item(text: string)
    | Heading(level: nat, text: string)
    | Bullet(text: string)
    | Para(text: string)

  /** End of a match of `/^\s*m\s+/` for the marker `m`, if the line has one.
      The greedy `\s*` cannot give back a unit that would then match `m`,
      since `m` is not white space. */
  function MarkerEnd(b: string, m: char): (r: Option<nat>)
    ensures r.Some? ==> r.value <= |b|
  {
    var i := SkipSpaces(b, 0);
    if i + 1 < |b| && b[i] == m && IsSpace(b[i + 1]) then Some(SkipSpaces(b, i + 1)) else None
  }

  /** Number of `#` at the head of `b` from index `i` on. */
  function HashRun(b: string, i: nat): (j: nat)
    requires i <= |b|
    ensures i <= j <= |b| && (j < |b| ==> b[j] != '#')
    ensures forall k :: i <= k < j ==> b[k] == '#'
    decreases |b| - i
  {
    if i < |b| && b[i] == '#' then HashRun(b, i + 1) else i
  }

  /** `/^#{1,3}\s+/`: the level and the end of the match. With four or more
      `#`, backtracking `#{1,3}` always leaves a `#`, never white space, after
      it, so there is no match. */
  function HeadingEnd(b: string): (r: Option<(nat, nat)>)
    ensures r.Some? ==> 1 <= r.value.0 <= 3 && r.value.1 <= |b|
  {
    var h := HashRun(b, 0);
    if 1 <= h <= 3 && h < |b| && IsSpace(b[h]) then Some((h, SkipSpaces(b, h))) else None
  }

  /** The block a (bold-rewritten) line becomes, tests taken in the source's
      order; the text kept is the line with its marker stripped. */
  function Classify(b: string): Block {
    match MarkerEnd(b, '*')
    case Some(e) => Item(b[e..])
    case None =>
      match HeadingEnd(b)
      case Some((level, e)) => Heading(level, b[e..])
      case None =>
        match MarkerEnd(b, '-')
        case Some(e) => Bullet(b[e..])
        case None => Para(b)
  }

  /** Classifying only strips a marker: the text kept is a suffix of the
      line, all of it for a paragraph, and a heading has level 1 to 3. */
  lemma ClassifyKeepsSuffix(b: string)
    ensures |Classify(b).text| <= |b| && Classify(b).text == b[|b| - |Classify(b).text|..]
    ensures Classify(b).Heading? ==> 1 <= Classify(b).level <= 3
    ensures Classify(b).Para? ==> Classify(b).text == b
  {
    match MarkerEnd(b, '*')
    case Some(e) =>
      assert b[e..] == b[|b| - |b[e..]|..];
    case None =>
      match HeadingEnd(b)
      case Some((level, e)) =>
        assert b[e..] == b[|b| - |b[e..]|..];
      case None =>
        match MarkerEnd(b, '-')
        case Some(e) =>
          assert b[e..] == b[|b| - |b[e..]|..];
        case None =>
          assert b == b[|b| - |b|..];
  }

  function LineBlock(line: string): Block {
    Classify(Bold(line))
  }

  /** `k` units `#`. */
  function Hashes(k: nat): (r: string)
    ensures |r| == k && forall i :: 0 <= i < k ==> r[i] == '#'
  {
    seq(k, _ => '#')
  }

  lemma {:induction false} SkipSpacesShift(p: string, t: string)
    ensures SkipSpaces(p + t, |p|) == |p| + SkipSpaces(t, 0)
  {
    var s := p + t;
    var j := SkipSpaces(t, 0);
    SkipSpacesOver(s, |p|, |p| + j);
    assert |p| + j < |s| ==> s[|p| + j] == t[j];
    SkipSpacesOver(t, 0, j);
  }

  /** A line of one to three `#` and white space is a heading of that level
      (h3, h4, h5), with the marks and the white space stripped. */
  lemma HeadingLine(k: nat, w: char, t: string)
    requires 1 <= k <= 3 && IsSpace(w)
    ensures Classify(Hashes(k) + [w] + t) == Heading(k, TrimStart(t))
  {
    var b := Hashes(k) + [w] + t;
    var e := k + 1 + SkipSpaces(t, 0);
    HeadingStart(k, w, t);
    HeadingSpaces(k, w, t);
  }

  /** One to three `#` then white space: no `*` item, and a heading of that level. */
  lemma HeadingStart(k: nat, w: char, t: string)
    requires 1 <= k <= 3 && IsSpace(w)
    ensures MarkerEnd(Hashes(k) + [w] + t, '*') == None
    ensures HeadingEnd(Hashes(k) + [w] + t) == Some((k, SkipSpaces(Hashes(k) + [w] + t, k)))
  {
    var b := Hashes(k) + [w] + t;
    assert b[0] == '#';
    assert SkipSpaces(b, 0) == 0;
    assert b[k] == w;
    HashRunOver(b, 0, k);
  }

  /** The heading's text starts after `t`'s own leading white space. */
  lemma HeadingSpaces(k: nat, w: char, t: string)
    requires IsSpace(w)
    ensures SkipSpaces(Hashes(k) + [w] + t, k) == k + 1 + SkipSpaces(t, 0)
    ensures (Hashes(k) + [w] + t)[k + 1 + SkipSpaces(t, 0)..] == TrimStart(t)
  {
    var p := Hashes(k) + [w];
    var b := p + t;
    assert b[k] == w;
    SkipSpacesShift(p, t);
    SkipSpacesOver(b, k, k + 1);
    assert b[|p| + SkipSpaces(t, 0)..] == t[SkipSpaces(t, 0)..];
  }

  lemma {:induction false} HashRunOver(b: string, i: nat, j: nat)
    requires i <= j <= |b|
    requires forall k :: i <= k < j ==> b[k] == '#'
    ensures HashRun(b, i) == HashRun(b, j)
    decreases j - i
  {
    if i < j {
      HashRunOver(b, i + 1, j);
    }
  }

  /** Four or more `#` fall through to a plain paragraph. */
  lemma DeepHashesAreParagraphs(k: nat, t: string)
    requires k >= 4
    ensures Classify(Hashes(k) + t) == Para(Hashes(k) + t)
  {
    var b := Hashes(k) + t;
    assert b[0] == '#' && b[1] == '#';
    assert SkipSpaces(b, 0) == 0;
    HashRunOver(b, 0, k);
  }

  /** Optional white space, `*`, white space: a list item without the marker. */
  lemma ItemLine(sp: string, w: char, t: string)
    requires IsBlank(sp) && IsSpace(w)
    ensures Classify(sp + "*" + [w] + t) == Item(TrimStart(t))
  {
    MarkerLine(sp, '*', w, t);
  }

  /** Optional white space, `-`, white space: a `•` paragraph without the marker. */
  lemma BulletLine(sp: string, w: char, t: string)
    requires IsBlank(sp) && IsSpace(w)
    ensures Classify(sp + "-" + [w] + t) == Bullet(TrimStart(t))
  {
    MarkerLine(sp, '-', w, t);
    MarkerStart(sp, '-', w, t);
    MarkerNotHeading(sp, '-', w, t);
  }

  /** White space, the marker `m`, white space and `t`: the marker ends where
      `t`'s own leading white space does. */
  lemma MarkerLine(sp: string, m: char, w: char, t: string)
    requires IsBlank(sp) && IsSpace(w) && !IsSpace(m)
    ensures MarkerEnd(sp + [m] + [w] + t, m) == Some(|sp| + 2 + SkipSpaces(t, 0))
    ensures (sp + [m] + [w] + t)[|sp| + 2 + SkipSpaces(t, 0)..] == TrimStart(t)
  {
    var p := sp + [m] + [w];
    var b := p + t;
    var e := |p| + SkipSpaces(t, 0);
    MarkerStart(sp, m, w, t);
    SkipSpacesShift(p, t);
    SkipSpacesOver(b, |sp| + 1, |sp| + 2);
    assert SkipSpaces(b, |sp| + 1) == e;
    assert b[e..] == t[SkipSpaces(t, 0)..];
  }

  /** The first unit that is not white space is the marker, so no other
      marker starts the line. */
  lemma MarkerStart(sp: string, m: char, w: char, t: string)
    requires IsBlank(sp) && IsSpace(w) && !IsSpace(m)
    ensures SkipSpaces(sp + [m] + [w] + t, 0) == |sp|
    ensures (sp + [m] + [w] + t)[|sp|] == m && (sp + [m] + [w] + t)[|sp| + 1] == w
    ensures forall other :: other != m ==> MarkerEnd(sp + [m] + [w] + t, other) == None
  {
    var b := sp + [m] + [w] + t;
    SkipSpacesOver(b, 0, |sp|);
    assert b[|sp|] == m;
  }

  /** A line that starts with white space or with a marker other than `#`
      is no heading. */
  lemma MarkerNotHeading(sp: string, m: char, w: char, t: string)
    requires IsBlank(sp) && m != '#'
    ensures HeadingEnd(sp + [m] + [w] + t) == None
  {
    var b := sp + [m] + [w] + t;
    if |sp| == 0 {
      assert b[0] == m;
    } else {
      assert b[0] == sp[0];
    }
  }

  /** A line whose first unit that is not white space is no marker (or is a
      `#` after white space) is a paragraph holding the whole line. */
  lemma PlainLine(sp: string, c: char, t: string)
    requires IsBlank(sp) && !IsSpace(c) && c != '*' && c != '-' && (c != '#' || sp != [])
    ensures Classify(sp + [c] + t) == Para(sp + [c] + t)
  {
    var b := sp + [c] + t;
    SkipSpacesOver(b, 0, |sp|);
    assert b[|sp|] == c;
    if sp == [] {
      assert b[0] == c;
    } else {
      assert b[0] == sp[0];
    }
  }

  /** A `*` or `-` with no white space right after it (or at the end of the
      line) marks nothing: the line is a paragraph. */
  lemma MarkerWithoutSpace(sp: string, m: char, t: string)
    requires IsBlank(sp) && (m == '*' || m == '-') && (t == [] || !IsSpace(t[0]))
    ensures Classify(sp + [m] + t) == Para(sp + [m] + t)
  {
    var b := sp + [m] + t;
    SkipSpacesOver(b, 0, |sp|);
    assert b[|sp|] == m;
    assert |sp| + 1 < |b| ==> b[|sp| + 1] == t[0];
    if sp == [] {
      assert b[0] == m;
    } else {
      assert b[0] == sp[0];
    }
  }

  /** One to three `#` not followed by white space (`#1`, `##`) are a
      paragraph too. */
  lemma HashesWithoutSpace(k: nat, t: string)
    requires 1 <= k <= 3 && (t == [] || (!IsSpace(t[0]) && t[0] != '#'))
    ensures Classify(Hashes(k) + t) == Para(Hashes(k) + t)
  {
    var b := Hashes(k) + t;
    assert b[0] == '#';
    assert SkipSpaces(b, 0) == 0;
    HashRunOver(b, 0, k);
    assert k < |b| ==> b[k] == t[0];
  }

  /** A line of white space only is an (empty-looking) paragraph. */
  lemma BlankLine(b: string)
    requires IsBlank(b)
    ensures Classify(b) == Para(b)
  {
    SkipSpacesOver(b, 0, |b|);
  }

  // ---------------------------------------------------------------------
  // Output
  // ---------------------------------------------------------------------

  /** The concatenation of a sequence of sequences. */
  function Flatten<T>(ss: seq<seq<T>>): seq<T>
    decreases |ss|
  {
    if ss == [] then [] else Flatten(ss[..|ss| - 1]) + ss[|ss| - 1]
  }

  lemma {:induction false} FlattenAppend<T>(a: seq<seq<T>>, b: seq<seq<T>>)
    ensures Flatten(a + b) == Flatten(a) + Flatten(b)
    decreases |b|
  {
    if b == [] {
      assert a + b == a;
    } else {
      var n := |b| - 1;
      var ab := a + b;
      assert ab[..|ab| - 1] == a + b[..n];
      FlattenAppend(a, b[..n]);
    }
  }

  lemma FlattenOne<T>(x: seq<T>)
    ensures Flatten([x]) == x
  {
    assert [x][..0] == [];
    assert [] + x == x;
  }

  const ListOpen: string := "<ul class=\"ml-4 list-disc\">"
  const ListClose: string := "</ul>"

  function HeadingTag(level: nat): string {
    if level == 1 then "h3" else if level == 2 then "h4" else "h5"
  }

  function BlockHtml(blk: Block): string {
    match blk
    case Item(t) => "<li>" + t + "</li>"
    case Heading(level, t) =>
      "<" + HeadingTag(level) + " class=\"font-semibold mt-2\">" + t + "</" + HeadingTag(level) + ">"
    case Bullet(t) => "<p class=\"mt-1\">\U{2022} " + t + "</p>"
    case Para(t) => "<p class=\"mt-1\">" + t + "</p>"
  }

  /** The output as a sequence of pieces: list tags and one block per line. */
  datatype Piece = Open | Close | Line(block: Block)

  function PieceHtml(p: Piece): string {
    match p
    case Open => ListOpen
    case Close => ListClose
    case Line(blk) => BlockHtml(blk)
  }

  function Html(ps: seq<Piece>): string {
    Flatten(seq(|ps|, i requires 0 <= i < |ps| => PieceHtml(ps[i])))
  }

  lemma HtmlAppend(a: seq<Piece>, b: seq<Piece>)
    ensures Html(a + b) == Html(a) + Html(b)
  {
    var ra := seq(|a|, i requires 0 <= i < |a| => PieceHtml(a[i]));
    var rb := seq(|b|, i requires 0 <= i < |b| => PieceHtml(b[i]));
    assert seq(|a + b|, i requires 0 <= i < |a + b| => PieceHtml((a + b)[i])) == ra + rb;
    FlattenAppend(ra, rb);
  }

  lemma HtmlOne(p: Piece)
    ensures Html([p]) == PieceHtml(p)
  {
    assert seq(1, i requires 0 <= i < 1 => PieceHtml([p][i])) == [PieceHtml(p)];
    FlattenOne(PieceHtml(p));
  }

  /** The pieces one line adds, given whether the previous line was an item
      (that is, whether a list is open). */
  function LinePieces(inList: bool, blk: Block): seq<Piece> {
    if blk.Item? then (if inList then [] else [Open]) + [Line(blk)]
    else (if inList then [Close] else []) + [Line(blk)]
  }

  /** Whether the list is open after the first `n` lines: the `n`-th is an item. */
  predicate InList(bs: seq<Block>, n: nat)
    requires n <= |bs|
  {
    n > 0 && bs[n - 1].Item?
  }

  function PiecesUpTo(bs: seq<Block>, n: nat): seq<Piece>
    requires n <= |bs|
    decreases n
  {
    if n == 0 then [] else PiecesUpTo(bs, n - 1) + LinePieces(InList(bs, n - 1), bs[n - 1])
  }

  /** All the pieces, with the list still open at the end closed. */
  function Pieces(bs: seq<Block>): seq<Piece> {
    PiecesUpTo(bs, |bs|) + (if InList(bs, |bs|) then [Close] else [])
  }

  /** The block of every line of the escaped text. */
  function Blocks(lines: seq<string>): (bs: seq<Block>)
    ensures |bs| == |lines|
  {
    seq(|lines|, i requires 0 <= i < |lines| => LineBlock(lines[i]))
  }

  function FormatPieces(raw: string): seq<Piece> {
    Pieces(Blocks(Lines(Esc(raw))))
  }

  /** What `formatToHtml` returns. */
  function Formatted(raw: string): string {
    if raw == "" then "" else Html(FormatPieces(raw))
  }

  lemma TwoPiecesHtml(p: Piece, q: Piece)
    ensures Html([p, q]) == PieceHtml(p) + PieceHtml(q)
  {
    HtmlOne(p);
    HtmlOne(q);
    assert [p, q] == [p] + [q];
    HtmlAppend([p], [q]);
  }

  /** The HTML of one bold-rewritten line, tests taken in the source's
      order, and whether the line is a list item. */
  method RenderLine(ln: string) returns (html: string, isItem: bool)
    ensures isItem == Classify(ln).Item?
    ensures html == BlockHtml(Classify(ln))
  {
    var star := MarkerEnd(ln, '*');
    if star.Some? {
      return "<li>" + ln[star.value..] + "</li>", true;
    }
    var heading := HeadingEnd(ln);
    if heading.Some? {
      var tag := HeadingTag(heading.value.0);
      return "<" + tag + " class=\"font-semibold mt-2\">" + ln[heading.value.1..] + "</" + tag + ">", false;
    }
    var dash := MarkerEnd(ln, '-');
    if dash.Some? {
      return "<p class=\"mt-1\">\U{2022} " + ln[dash.value..] + "</p>", false;
    }
    return "<p class=\"mt-1\">" + ln + "</p>", false;
  }

  /** An item after a line that is not one opens the list before it. */
  lemma StepOpen(bs: seq<Block>, n: nat)
    requires n < |bs| && bs[n].Item? && !InList(bs, n)
    ensures Html(PiecesUpTo(bs, n + 1)) == Html(PiecesUpTo(bs, n)) + ListOpen + BlockHtml(bs[n])
  {
    assert PiecesUpTo(bs, n + 1) == PiecesUpTo(bs, n) + [Open, Line(bs[n])];
    HtmlAppend(PiecesUpTo(bs, n), [Open, Line(bs[n])]);
    TwoPiecesHtml(Open, Line(bs[n]));
    Assoc(Html(PiecesUpTo(bs, n)), ListOpen, BlockHtml(bs[n]));
  }

  /** A line that is not an item after an item closes the list before it. */
  lemma StepClose(bs: seq<Block>, n: nat)
    requires n < |bs| && !bs[n].Item? && InList(bs, n)
    ensures Html(PiecesUpTo(bs, n + 1)) == Html(PiecesUpTo(bs, n)) + ListClose + BlockHtml(bs[n])
  {
    assert PiecesUpTo(bs, n + 1) == PiecesUpTo(bs, n) + [Close, Line(bs[n])];
    HtmlAppend(PiecesUpTo(bs, n), [Close, Line(bs[n])]);
    TwoPiecesHtml(Close, Line(bs[n]));
    Assoc(Html(PiecesUpTo(bs, n)), ListClose, BlockHtml(bs[n]));
  }

  /** Otherwise the line adds its block alone. */
  lemma StepSame(bs: seq<Block>, n: nat)
    requires n < |bs| && bs[n].Item? == InList(bs, n)
    ensures Html(PiecesUpTo(bs, n + 1)) == Html(PiecesUpTo(bs, n)) + BlockHtml(bs[n])
  {
    assert PiecesUpTo(bs, n + 1) == PiecesUpTo(bs, n) + [Line(bs[n])];
    HtmlAppend(PiecesUpTo(bs, n), [Line(bs[n])]);
    HtmlOne(Line(bs[n]));
  }

  lemma ClosingTag(bs: seq<Block>, closes: bool)
    requires closes <==> InList(bs, |bs|)
    ensures closes ==> Html(Pieces(bs)) == Html(PiecesUpTo(bs, |bs|)) + ListClose
    ensures !closes ==> Html(Pieces(bs)) == Html(PiecesUpTo(bs, |bs|))
  {
    if closes {
      HtmlOne(Close);
      HtmlAppend(PiecesUpTo(bs, |bs|), [Close]);
    } else {
      assert Pieces(bs) == PiecesUpTo(bs, |bs|) + [];
      assert PiecesUpTo(bs, |bs|) + [] == PiecesUpTo(bs, |bs|);
    }
  }

  /** `formatToHtml(text)`: one pass over the lines with an `inList` flag
      that opens a `<ul>` before the first item of a run and closes it
      before the first line after the run or at the end. */
  method FormatToHtml(raw: string) returns (out: string)
    ensures out == Formatted(raw)
  {
    if raw == "" {
      return "";
    }
    var lines := Lines(Esc(raw));
    ghost var bs := Blocks(lines);
    assert |bs| == |lines|;
    out := "";
    var inList := false;
    var i := 0;
    while i < |lines|
      invariant i <= |lines|
      invariant out == Html(PiecesUpTo(bs, i))
      invariant inList <==> InList(bs, i)
    {
      var html, isItem := RenderLine(Bold(lines[i]));
      assert bs[i] == LineBlock(lines[i]);
      if isItem {
        if !inList {
          StepOpen(bs, i);
          out := out + ListOpen;
          inList := true;
        } else {
          StepSame(bs, i);
        }
      } else if inList {
        StepClose(bs, i);
        out := out + ListClose;
        inList := false;
      } else {
        StepSame(bs, i);
      }
      out := out + html;
      i := i + 1;
    }
    ClosingTag(bs, inList);
    if inList {
      out := out + ListClose;
    }
  }

  // ---------------------------------------------------------------------
  // Shape of the output
  // ---------------------------------------------------------------------

  /** Reads one piece with a list open or not; None for a tag out of place:
      a second `<ul>` inside a list, a `</ul>` outside one, an item outside a
      list or another block inside one. */
  function Step(open: bool, p: Piece): Option<bool> {
    match p
    case Open => if open then None else Some(true)
    case Close => if open then Some(false) else None
    case Line(blk) => if blk.Item? == open then Some(open) else None
  }

  function Walk(ps: seq<Piece>): Option<bool>
    decreases |ps|
  {
    if ps == [] then Some(false)
    else
      match Walk(ps[..|ps| - 1])
      case None => None
      case Some(open) => Step(open, ps[|ps| - 1])
  }

  /** Lists never nest, every item sits inside one, nothing else does, and
      every `<ul>` is closed. */
  predicate WellNested(ps: seq<Piece>) {
    Walk(ps) == Some(false)
  }

  lemma WalkSnoc(ps: seq<Piece>, p: Piece)
    ensures Walk(ps + [p]) == if Walk(ps).None? then None else Step(Walk(ps).value, p)
  {
    assert (ps + [p])[..|ps|] == ps;
  }

  lemma WalkTwo(ps: seq<Piece>, p: Piece, q: Piece)
    requires Walk(ps).Some? && Step(Walk(ps).value, p).Some?
    ensures Walk(ps + [p, q]) == Step(Step(Walk(ps).value, p).value, q)
  {
    var front := ps + [p];
    WalkSnoc(ps, p);
    assert Walk(front) == Step(Walk(ps).value, p);
    var s := ps + [p, q];
    assert s[..|s| - 1] == front && s[|s| - 1] == q;
  }

  lemma WalkLine(ps: seq<Piece>, inList: bool, blk: Block)
    requires Walk(ps) == Some(inList)
    ensures Walk(ps + LinePieces(inList, blk)) == Some(blk.Item?)
  {
    if blk.Item? && !inList {
      WalkTwo(ps, Open, Line(blk));
      assert LinePieces(inList, blk) == [Open, Line(blk)];
    } else if !blk.Item? && inList {
      WalkTwo(ps, Close, Line(blk));
      assert LinePieces(inList, blk) == [Close, Line(blk)];
    } else {
      WalkSnoc(ps, Line(blk));
      assert LinePieces(inList, blk) == [Line(blk)];
    }
  }

  lemma {:induction false} WalkUpTo(bs: seq<Block>, n: nat)
    requires n <= |bs|
    ensures Walk(PiecesUpTo(bs, n)) == Some(InList(bs, n))
    decreases n
  {
    if n > 0 {
      WalkUpTo(bs, n - 1);
      WalkLine(PiecesUpTo(bs, n - 1), InList(bs, n - 1), bs[n - 1]);
    }
  }

  lemma PiecesWellNested(bs: seq<Block>)
    ensures WellNested(Pieces(bs))
  {
    WalkUpTo(bs, |bs|);
    if InList(bs, |bs|) {
      WalkSnoc(PiecesUpTo(bs, |bs|), Close);
    } else {
      assert Pieces(bs) == PiecesUpTo(bs, |bs|);
    }
  }

  /** Which piece may follow which: `</ul>` only after an item and only
      before a line that is not one, `<ul>` only after a line that is not
      an item and only before an item. */
  predicate Fits(p: Piece, q: Piece) {
    && (p.Open? ==> q.Line? && q.block.Item?)
    && (p.Close? ==> q.Line? && !q.block.Item?)
    && (q.Open? ==> p.Line? && !p.block.Item?)
    && (q.Close? ==> p.Line? && p.block.Item?)
  }

  /** Every list is a whole run of consecutive items: it opens right before
      the first item of the run, closes right after the last one, and two
      runs are never split into two lists or joined into one. */
  predicate MaximalRuns(ps: seq<Piece>) {
    && (forall i :: 0 <= i < |ps| - 1 ==> Fits(ps[i], ps[i + 1]))
    && (|ps| > 0 ==> !ps[0].Close? && !ps[|ps| - 1].Open?)
  }

  lemma MaximalAppend(a: seq<Piece>, b: seq<Piece>)
    requires forall i :: 0 <= i < |a| - 1 ==> Fits(a[i], a[i + 1])
    requires forall i :: 0 <= i < |b| - 1 ==> Fits(b[i], b[i + 1])
    requires a != [] && b != [] ==> Fits(a[|a| - 1], b[0])
    ensures forall i :: 0 <= i < |a + b| - 1 ==> Fits((a + b)[i], (a + b)[i + 1])
  {
    forall i | 0 <= i < |a + b| - 1
      ensures Fits((a + b)[i], (a + b)[i + 1])
    {
      if i < |a| - 1 {
        assert (a + b)[i] == a[i] && (a + b)[i + 1] == a[i + 1];
      } else if i == |a| - 1 {
        assert (a + b)[i] == a[|a| - 1] && (a + b)[i + 1] == b[0];
      } else {
        assert (a + b)[i] == b[i - |a|] && (a + b)[i + 1] == b[i - |a| + 1];
      }
    }
  }

  /** The pieces of a line never end with `<ul>`, and a `</ul>` opens them
      only when the list before was open. */
  lemma LinePiecesShape(inList: bool, blk: Block)
    ensures LinePieces(inList, blk) != []
    ensures LinePieces(inList, blk)[|LinePieces(inList, blk)| - 1] == Line(blk)
    ensures LinePieces(inList, blk)[0].Close? ==> inList && !blk.Item?
    ensures LinePieces(inList, blk)[0].Open? ==> !inList && blk.Item?
    ensures forall i :: 0 <= i < |LinePieces(inList, blk)| - 1 ==>
      Fits(LinePieces(inList, blk)[i], LinePieces(inList, blk)[i + 1])
  {
  }

  lemma {:induction false} MaximalUpTo(bs: seq<Block>, n: nat)
    requires n <= |bs|
    ensures MaximalRuns(PiecesUpTo(bs, n))
    ensures n > 0 ==> PiecesUpTo(bs, n)[|PiecesUpTo(bs, n)| - 1] == Line(bs[n - 1])
    decreases n
  {
    if n > 0 {
      MaximalUpTo(bs, n - 1);
      var front, last := PiecesUpTo(bs, n - 1), LinePieces(InList(bs, n - 1), bs[n - 1]);
      LinePiecesShape(InList(bs, n - 1), bs[n - 1]);
      MaximalAppend(front, last);
      assert PiecesUpTo(bs, n) == front + last;
      assert (front + last)[|front + last| - 1] == last[|last| - 1];
      if front != [] {
        assert (front + last)[0] == front[0];
      } else {
        assert (front + last)[0] == last[0];
      }
    }
  }

  /** The list tags sit exactly at the edges of the runs of items. */
  lemma PiecesMaximal(bs: seq<Block>)
    ensures MaximalRuns(Pieces(bs))
  {
    var front := PiecesUpTo(bs, |bs|);
    MaximalUpTo(bs, |bs|);
    if InList(bs, |bs|) {
      MaximalAppend(front, [Close]);
      assert Pieces(bs) == front + [Close];
      assert (front + [Close])[0] == front[0];
    } else {
      assert Pieces(bs) == front;
    }
  }

  function LinePart(p: Piece): seq<Block> {
    if p.Line? then [p.block] else []
  }

  /** The blocks of the pieces, in order, without the list tags. */
  function BlocksOf(ps: seq<Piece>): seq<Block> {
    Flatten(seq(|ps|, i requires 0 <= i < |ps| => LinePart(ps[i])))
  }

  lemma BlocksOfAppend(a: seq<Piece>, b: seq<Piece>)
    ensures BlocksOf(a + b) == BlocksOf(a) + BlocksOf(b)
  {
    var ra := seq(|a|, i requires 0 <= i < |a| => LinePart(a[i]));
    var rb := seq(|b|, i requires 0 <= i < |b| => LinePart(b[i]));
    assert seq(|a + b|, i requires 0 <= i < |a + b| => LinePart((a + b)[i])) == ra + rb;
    FlattenAppend(ra, rb);
  }

  lemma BlocksOfOne(p: Piece)
    ensures BlocksOf([p]) == LinePart(p)
  {
    assert seq(1, i requires 0 <= i < 1 => LinePart([p][i])) == [LinePart(p)];
    FlattenOne(LinePart(p));
  }

  lemma BlocksOfLine(inList: bool, blk: Block)
    ensures BlocksOf(LinePieces(inList, blk)) == [blk]
  {
    BlocksOfOne(Line(blk));
    if blk.Item? && !inList {
      BlocksOfOne(Open);
      BlocksOfAppend([Open], [Line(blk)]);
    } else if !blk.Item? && inList {
      BlocksOfOne(Close);
      BlocksOfAppend([Close], [Line(blk)]);
    } else {
      assert LinePieces(inList, blk) == [Line(blk)];
    }
  }

  lemma {:induction false} BlocksOfUpTo(bs: seq<Block>, n: nat)
    requires n <= |bs|
    ensures BlocksOf(PiecesUpTo(bs, n)) == bs[..n]
    decreases n
  {
    if n > 0 {
      BlocksOfUpTo(bs, n - 1);
      BlocksOfStep(bs, n);
    } else {
      assert BlocksOf([]) == [];
    }
  }

  lemma BlocksOfStep(bs: seq<Block>, n: nat)
    requires 0 < n <= |bs| && BlocksOf(PiecesUpTo(bs, n - 1)) == bs[..n - 1]
    ensures BlocksOf(PiecesUpTo(bs, n)) == bs[..n]
  {
    var front, last := PiecesUpTo(bs, n - 1), LinePieces(InList(bs, n - 1), bs[n - 1]);
    assert PiecesUpTo(bs, n) == front + last;
    BlocksOfAppend(front, last);
    BlocksOfLine(InList(bs, n - 1), bs[n - 1]);
    PrefixSnoc(bs, n);
  }

  lemma PrefixSnoc(bs: seq<Block>, n: nat)
    requires 0 < n <= |bs|
    ensures bs[..n] == bs[..n - 1] + [bs[n - 1]]
  {
  }

  /** Every line yields exactly one block, in order. */
  lemma OneBlockPerLine(bs: seq<Block>)
    ensures BlocksOf(Pieces(bs)) == bs
  {
    BlocksOfUpTo(bs, |bs|);
    assert bs[..|bs|] == bs;
    if InList(bs, |bs|) {
      BlocksOfAppend(PiecesUpTo(bs, |bs|), [Close]);
      BlocksOfOne(Close);
    } else {
      assert Pieces(bs) == PiecesUpTo(bs, |bs|);
    }
  }

  /** What the formatter promises about any non-empty reply: its HTML is the
      concatenation of well-nested pieces, and those pieces hold one block
      per `\n`-separated line of the reply, each taken from the escaped line. */
  lemma FormattedShape(raw: string)
    requires raw != ""
    ensures Formatted(raw) == Html(FormatPieces(raw))
    ensures WellNested(FormatPieces(raw)) && MaximalRuns(FormatPieces(raw))
    ensures |BlocksOf(FormatPieces(raw))| == |Lines(raw)|
    ensures forall i :: 0 <= i < |Lines(raw)| ==>
      BlocksOf(FormatPieces(raw))[i] == LineBlock(Esc(Lines(raw)[i]))
  {
    var bs := Blocks(Lines(Esc(raw)));
    PiecesWellNested(bs);
    PiecesMaximal(bs);
    OneBlockPerLine(bs);
    EscIsPerUnit(raw);
    LinesOfEscape(raw);
    forall i | 0 <= i < |Lines(raw)|
      ensures BlocksOf(FormatPieces(raw))[i] == LineBlock(Esc(Lines(raw)[i]))
    {
      EscIsPerUnit(Lines(raw)[i]);
    }
  }

  lemma {:induction false} FlattenLength<T>(ss: seq<seq<T>>, k: nat)
    requires k < |ss|
    ensures |Flatten(ss)| >= |ss[k]|
    decreases |ss|
  {
    if k < |ss| - 1 {
      FlattenLength(ss[..|ss| - 1], k);
    }
  }

  lemma {:induction false} PiecesUpToLength(bs: seq<Block>, n: nat)
    requires n <= |bs|
    ensures |PiecesUpTo(bs, n)| >= n
    decreases n
  {
    if n > 0 {
      PiecesUpToLength(bs, n - 1);
    }
  }

  lemma PieceHtmlNotEmpty(p: Piece)
    ensures |PieceHtml(p)| > 0
  {
    match p
    case Open =>
    case Close =>
    case Line(blk) =>
  }

  /** Some pieces render as some text. */
  lemma HtmlNotEmpty(ps: seq<Piece>)
    requires |ps| > 0
    ensures Html(ps) != ""
  {
    var ss := seq(|ps|, i requires 0 <= i < |ps| => PieceHtml(ps[i]));
    PieceHtmlNotEmpty(ps[0]);
    assert |ss[0]| > 0;
    FlattenLength(ss, 0);
  }

  /** The empty reply renders as nothing; any other reply as something. */
  lemma FormattedEmpty(raw: string)
    ensures Formatted(raw) == "" <==> raw == ""
  {
    if raw != "" {
      var bs := Blocks(Lines(Esc(raw)));
      PiecesUpToLength(bs, |bs|);
      assert |Pieces(bs)| > 0;
      HtmlNotEmpty(Pieces(bs));
    }
  }
}
