// The headers of a mail, folded over several lines or not, and removing some of them.

module HeaderText {
  import opened Sequences
  import opened LineStates
  import opened MailText

  predicate Blank(c: char) {
    c == ' ' || c == '\t'
  }

  // ---------------------------------------------------------------- where the body starts

  /** The offset behind the first empty line, or zero if there is none. */
  function FindBody(m: string): (r: nat)
    ensures r <= |m|
    decreases |m|
  {
    var k := LineLen(m);
    if m == "" then 0
    else if m[..k] == "\n" then k
    else if k == |m| then 0
    else
      var r := FindBody(m[k..]);
      if r == 0 then 0 else k + r
  }

  /** Lines that all end, none of them empty. */
  ghost predicate Solid(h: string) {
    && (h != "" ==> EndsInNewline(h))
    && forall p :: 0 <= p < |h| && h[p] == '\n' ==> p > 0 && h[p - 1] != '\n'
  }

  /** The body starts behind the empty line that follows the headers. */
  ghost predicate BodyAt(m: string, b: nat) {
    0 < b <= |m| && m[b - 1] == '\n' && Solid(m[..b - 1])
  }

  lemma {:induction false} FoundBody(m: string)
    ensures FindBody(m) > 0 ==> BodyAt(m, FindBody(m))
    decreases |m|
  {
    var k := LineLen(m);
    if m != "" && m[..k] == "\n" {
      assert m[..k - 1] == "";
    } else if k < |m| {
      FoundBody(m[k..]);
      var r := FindBody(m[k..]);
      if r > 0 {
        var line, rest := m[..k], m[k..][..r - 1];
        assert m[..k + r - 1] == line + rest;
        LineIs(m);
        SolidLine(line);
        SolidJoin(line, rest);
      }
    }
  }

  lemma SolidLine(line: string)
    requires OneLine(line) && EndsInNewline(line) && line != "\n"
    ensures Solid(line)
  {
  }

  lemma SolidJoin(a: string, b: string)
    requires Solid(a) && Solid(b)
    ensures Solid(a + b)
  {
    assert b != "" && b[0] == '\n' ==> false;
    forall p | 0 <= p < |a + b| && (a + b)[p] == '\n' ensures p > 0 && (a + b)[p - 1] != '\n' {
      if p >= |a| {
        assert b[p - |a|] == '\n';
      }
    }
  }

  lemma {:induction false} BodyIs(m: string, b: nat)
    requires BodyAt(m, b)
    ensures FindBody(m) == b
    decreases |m|
  {
    var h := m[..b - 1];
    var k := LineLen(m);
    if h == "" {
      FirstLineEnds(m, 0);
      assert m[..1] == "\n";
    } else {
      var e := FirstNl(h);
      assert h[|h| - 1] == '\n';
      FirstLineEnds(m, e);
      assert m[e] == h[e];
      assert e > 0;
      var rest := m[k..];
      assert rest[..b - k - 1] == h[k..];
      assert Solid(h[k..]) by { SolidRest(h, k); }
      BodyIs(rest, b - k);
    }
  }

  lemma FirstLineEnds(m: string, e: nat)
    requires e < |m| && m[e] == '\n' && forall j :: 0 <= j < e ==> m[j] != '\n'
    ensures LineLen(m) == e + 1
  {
    FirstNlIs(m, e);
  }

  lemma SolidRest(h: string, k: nat)
    requires Solid(h) && 0 < k <= |h| && h[k - 1] == '\n'
    ensures Solid(h[k..])
  {
    var t := h[k..];
    forall p | 0 <= p < |t| && t[p] == '\n' ensures p > 0 && t[p - 1] != '\n' {
      assert h[k + p] == '\n';
    }
  }

  // ---------------------------------------------------------------- headers and their folds

  /** The length of the first header: its line, and the lines after it that start with a blank. */
  function HeaderLen(h: string): (r: nat)
    ensures r <= |h| && (h != "" ==> r > 0)
    decreases |h|
  {
    var k := LineLen(h);
    if k < |h| && Blank(h[k]) then k + HeaderLen(h[k..]) else k
  }

  function Headers(h: string): seq<string>
    decreases |h|
  {
    if h == "" then [] else [h[..HeaderLen(h)]] + Headers(h[HeaderLen(h)..])
  }

  /** One header: each newline in it but the last is a fold, followed by a blank. */
  ghost predicate IsHeader(h: string) {
    && EndsInNewline(h) && Solid(h)
    && forall p :: 0 <= p < |h| - 1 && h[p] == '\n' ==> Blank(h[p + 1])
  }

  /** Headers that follow each other: none but the first starts with a blank. */
  ghost predicate AreHeaders(hs: seq<string>) {
    hs == [] || (IsHeader(hs[0]) && (|hs| > 1 ==> hs[1] != "" && !Blank(hs[1][0])) && AreHeaders(hs[1..]))
  }

  /** A header on one line. */
  function Unfold(h: string): (r: string)
    ensures |r| == |h|
  {
    if |h| <= 1 then h else [if h[0] == '\n' then ' ' else h[0]] + Unfold(h[1..])
  }

  function UnfoldAll(hs: seq<string>): string {
    if hs == [] then "" else Unfold(hs[0]) + UnfoldAll(hs[1..])
  }

  /** Where the newlines in a header are, but for the last byte, if it starts at some offset. */
  function FoldsIn(h: string, off: nat): seq<nat> {
    if |h| <= 1 then [] else (if h[0] == '\n' then [off] else []) + FoldsIn(h[1..], off + 1)
  }

  function Folds(hs: seq<string>, off: nat): seq<nat> {
    if hs == [] then [] else FoldsIn(hs[0], off) + Folds(hs[1..], off + |hs[0]|)
  }

  /** Every newline that is followed by a blank. */
  function Scan(m: string, off: nat): seq<nat> {
    if |m| <= 1 then [] else (if m[0] == '\n' && Blank(m[1]) then [off] else []) + Scan(m[1..], off + 1)
  }

  /** The lines of some headers fall into headers. */
  lemma {:induction false} HeadersAre(h: string)
    requires Solid(h)
    ensures AreHeaders(Headers(h)) && Concat(Headers(h)) == h
    ensures h != "" ==> Headers(h) != [] && Headers(h)[0] != "" && Headers(h)[0][0] == h[0]
    decreases |h|
  {
    hide HeaderLen, IsHeader, Solid;
    if h != "" {
      var k := HeaderLen(h);
      FirstHeader(h);
      HeadersAre(h[k..]);
      assert h == h[..k] + h[k..];
      assert Headers(h)[1..] == Headers(h[k..]);
      assert k < |h| ==> h[k..][0] == h[k];
    }
  }

  lemma {:induction false} FirstHeader(h: string)
    requires Solid(h) && h != ""
    ensures var k := HeaderLen(h); 0 < k && IsHeader(h[..k]) && (k < |h| ==> !Blank(h[k])) && Solid(h[k..])
    decreases |h|
  {
    hide LineLen, FirstNl, IsHeader, Solid;
    var k := LineLen(h);
    FirstSolid(h);
    if k < |h| && Blank(h[k]) {
      FirstHeader(h[k..]);
      var n := HeaderLen(h[k..]);
      var rest := h[k..][..n];
      assert h[..k + n] == h[..k] + rest && h[k..][n..] == h[k + n..];
      FoldJoin(h[..k], rest);
    }
  }

  lemma FirstSolid(h: string)
    requires Solid(h) && h != ""
    ensures var k := LineLen(h); 0 < k && OneLine(h[..k]) && EndsInNewline(h[..k]) && Solid(h[..k]) && Solid(h[k..]) && IsHeader(h[..k])
  {
    hide FirstNl;
    var k := LineLen(h);
    LineIs(h);
    assert h[..|h|] == h;
    SolidStart(h, k);
    SolidRest(h, k);
  }

  lemma SolidStart(h: string, k: nat)
    requires Solid(h) && 0 < k <= |h| && h[k - 1] == '\n'
    ensures Solid(h[..k])
  {
  }

  lemma FoldJoin(line: string, rest: string)
    requires OneLine(line) && EndsInNewline(line) && Solid(line) && IsHeader(rest) && rest != "" && Blank(rest[0])
    ensures IsHeader(line + rest)
  {
    var h := line + rest;
    SolidJoin(line, rest);
    forall p | 0 <= p < |h| - 1 && h[p] == '\n' ensures Blank(h[p + 1]) {
      if p >= |line| {
        assert rest[p - |line|] == '\n';
      }
    }
  }

  // ---------------------------------------------------------------- folds

  ghost predicate BlankFolds(h: string) {
    EndsInNewline(h) && forall p :: 0 <= p < |h| - 1 && h[p] == '\n' ==> Blank(h[p + 1])
  }

  lemma FirstFold(h: string)
    requires BlankFolds(h)
    ensures |h| > 0 && (|h| == 1 ==> h == "\n") && (|h| > 1 && h[0] == '\n' ==> Blank(h[1]))
  {
  }

  lemma FoldStep(h: string, off: nat)
    ensures FoldsIn(h, off) == if |h| <= 1 then [] else (if h[0] == '\n' then [off] else []) + FoldsIn(h[1..], off + 1)
  {
  }

  lemma ScanStep(m: string, off: nat)
    requires |m| > 1
    ensures Scan(m, off) == (if m[0] == '\n' && Blank(m[1]) then [off] else []) + Scan(m[1..], off + 1)
  {
  }

  lemma BlankRest(h: string)
    requires BlankFolds(h) && |h| > 1
    ensures BlankFolds(h[1..])
  {
    var t := h[1..];
    assert forall p :: 0 <= p < |t| ==> t[p] == h[p + 1];
  }

  /** The newlines followed by a blank are the folds. */
  lemma {:induction false} ScanHeader(h: string, rest: string, off: nat)
    requires BlankFolds(h) && rest != "" && !Blank(rest[0])
    ensures Scan(h + rest, off) == FoldsIn(h, off) + Scan(rest, off + |h|)
    decreases |h|
  {
    hide BlankFolds, Scan, FoldsIn;
    FirstFold(h);
    FoldStep(h, off);
    ScanStep(h + rest, off);
    assert (h + rest)[1..] == h[1..] + rest;
    if |h| == 1 {
      assert (h + rest)[1] == rest[0] && h[1..] + rest == rest;
      assert [] + Scan(rest, off + 1) == Scan(rest, off + 1);
    } else {
      BlankRest(h);
      ScanHeader(h[1..], rest, off + 1);
      assert (h + rest)[1] == h[1];
      var first := if h[0] == '\n' then [off] else [];
      assert first + (FoldsIn(h[1..], off + 1) + Scan(rest, off + |h|)) == first + FoldsIn(h[1..], off + 1) + Scan(rest, off + |h|);
    }
  }

  lemma {:induction false} ScanHeaders(hs: seq<string>, off: nat)
    requires AreHeaders(hs)
    ensures Scan(Concat(hs) + "\n", off) == Folds(hs, off)
    decreases |hs|
  {
    hide Solid, IsHeader, Scan;
    if hs == [] {
      assert Scan("" + "\n", off) == [] by { ScanEnd("" + "\n", off); }
    } else {
      var rest := Concat(hs[1..]) + "\n";
      assert Concat(hs) + "\n" == hs[0] + rest;
      ScanHeaders(hs[1..], off + |hs[0]|);
      assert rest[0] == if |hs| > 1 then hs[1][0] else '\n';
      assert BlankFolds(hs[0]) by { HeaderFolds(hs[0]); }
      ScanHeader(hs[0], rest, off);
    }
  }

  lemma ScanEnd(m: string, off: nat)
    requires |m| <= 1
    ensures Scan(m, off) == []
  {
  }

  lemma HeaderFolds(h: string)
    requires IsHeader(h)
    ensures BlankFolds(h)
  {
  }

  /** Unfolding changes just the folds. */
  lemma {:induction false} FoldsInAt(h: string, off: nat, k: nat)
    requires k < |h|
    ensures off + k in FoldsIn(h, off) <==> h[k] == '\n' && k < |h| - 1
    ensures Unfold(h)[k] == if off + k in FoldsIn(h, off) then ' ' else h[k]
    ensures forall p :: p in FoldsIn(h, off) ==> off <= p < off + |h|
    decreases |h|
  {
    if |h| > 1 {
      FoldsInAt(h[1..], off + 1, if k == 0 then 0 else k - 1);
    }
  }

  lemma {:induction false} FoldsRange(hs: seq<string>, off: nat)
    ensures forall p :: p in Folds(hs, off) ==> off <= p < off + |Concat(hs)|
    decreases |hs|
  {
    if hs != [] {
      FoldsRange(hs[1..], off + |hs[0]|);
      if hs[0] != "" {
        FoldsInAt(hs[0], off, 0);
      }
    }
  }

  lemma {:induction false} FoldsAt(hs: seq<string>, off: nat, k: nat)
    requires k < |Concat(hs)|
    ensures |UnfoldAll(hs)| == |Concat(hs)|
    ensures off + k in Folds(hs, off) ==> Concat(hs)[k] == '\n'
    ensures UnfoldAll(hs)[k] == if off + k in Folds(hs, off) then ' ' else Concat(hs)[k]
    decreases |hs|
  {
    hide Unfold, UnfoldAll, FoldsIn, Folds, Concat;
    SameSize(hs);
    Parted(hs, off, off + k);
    var h, rest := hs[0], hs[1..];
    FoldsRange(rest, off + |h|);
    if k < |h| {
      FoldsInAt(h, off, k);
    } else {
      SecondPart(Unfold(h), UnfoldAll(rest), k);
      SecondPart(h, Concat(rest), k);
      FoldsAt(rest, off + |h|, k - |h|);
      NoFoldsOutside(h, off, off + k);
    }
  }

  lemma Parted(hs: seq<string>, off: nat, p: nat)
    ensures Concat(hs) == "" || hs != []
    ensures hs != [] ==> (p in Folds(hs, off) <==> p in FoldsIn(hs[0], off) || p in Folds(hs[1..], off + |hs[0]|))
    ensures hs != [] ==> Concat(hs) == hs[0] + Concat(hs[1..]) && UnfoldAll(hs) == Unfold(hs[0]) + UnfoldAll(hs[1..])
  {
    hide FoldsIn, Unfold;
  }

  lemma SecondPart(a: string, b: string, k: nat)
    requires |a| <= k < |a + b|
    ensures (a + b)[k] == b[k - |a|]
  {
  }

  lemma NoFoldsOutside(h: string, off: nat, p: nat)
    requires p >= off + |h|
    ensures p !in FoldsIn(h, off)
  {
    if h != "" {
      FoldsInAt(h, off, 0);
    }
  }

  lemma {:induction false} SameSize(hs: seq<string>)
    ensures |UnfoldAll(hs)| == |Concat(hs)|
  {
    if hs != [] {
      SameSize(hs[1..]);
    }
  }

  /** Writing a byte at some positions. */
  function SetAll(s: string, at: seq<nat>, ch: char): (r: string)
    requires forall p :: p in at ==> p < |s|
    ensures |r| == |s| && forall k :: 0 <= k < |s| ==> r[k] == if k in at then ch else s[k]
    decreases |at|
  {
    if at == [] then s
    else
      assert at[0] in at;
      assert forall k :: k in at <==> k == at[0] || k in at[1..];
      SetAll(s[at[0] := ch], at[1..], ch)
  }

  /** Spaces at the folds unfold all headers, and newlines there fold them again. */
  lemma Refold(hs: seq<string>, tail: string)
    ensures |UnfoldAll(hs)| == |Concat(hs)| && forall p :: p in Folds(hs, 0) ==> p < |Concat(hs)|
    ensures SetAll(Concat(hs) + tail, Folds(hs, 0), ' ') == UnfoldAll(hs) + tail
    ensures SetAll(UnfoldAll(hs) + tail, Folds(hs, 0), '\n') == Concat(hs) + tail
  {
    SameSize(hs);
    FoldsRange(hs, 0);
    var folded, unfolded := Concat(hs) + tail, UnfoldAll(hs) + tail;
    forall k | 0 <= k < |Concat(hs)|
      ensures unfolded[k] == (if k in Folds(hs, 0) then ' ' else folded[k]) && (k in Folds(hs, 0) ==> folded[k] == '\n')
    {
      FoldsAt(hs, 0, k);
    }
    assert SetAll(folded, Folds(hs, 0), ' ') == unfolded;
    assert SetAll(unfolded, Folds(hs, 0), '\n') == folded;
  }

  // ---------------------------------------------------------------- removing headers

  function Colon(line: string): (r: nat)
    ensures r <= |line| && (r < |line| ==> line[r] == ':') && forall j :: 0 <= j < r ==> line[j] != ':'
  {
    if line == "" || line[0] == ':' then 0 else 1 + Colon(line[1..])
  }

  /** The text before the first colon of an unfolded header matches. */
  predicate Hit(line: string, matches: string -> bool) {
    Colon(line) < |line| && matches(CString(line[..Colon(line)]))
  }

  /** The headers that do not match. */
  function Keep(hs: seq<string>, matches: string -> bool): seq<string> {
    if hs == [] then [] else (if Hit(Unfold(hs[0]), matches) then [] else [hs[0]]) + Keep(hs[1..], matches)
  }

  /** A mail without the headers that match; a mail without an empty line has no headers. */
  function Removed(m: string, matches: string -> bool): string {
    var b := FindBody(m);
    if b == 0 then m else Concat(Keep(Headers(m[..b - 1]), matches)) + m[b - 1..]
  }

  lemma {:induction false} KeepAre(hs: seq<string>, matches: string -> bool)
    requires AreHeaders(hs)
    ensures AreHeaders(Keep(hs, matches)) && |Concat(Keep(hs, matches))| <= |Concat(hs)|
    ensures Keep(hs, matches) != [] && Keep(hs, matches)[0] != hs[0] ==> Keep(hs, matches)[0] != "" && !Blank(Keep(hs, matches)[0][0])
    decreases |hs|
  {
    if hs != [] {
      KeepAre(hs[1..], matches);
      var rest := Keep(hs[1..], matches);
      assert ([hs[0]] + rest)[1..] == rest;
      assert [] + rest == rest;
    }
  }

  lemma {:induction false} SolidConcat(hs: seq<string>)
    requires AreHeaders(hs)
    ensures Solid(Concat(hs))
    decreases |hs|
  {
    if hs != [] {
      SolidConcat(hs[1..]);
      SolidJoin(hs[0], Concat(hs[1..]));
    }
  }

  // ---------------------------------------------------------------- which headers are removed

  /** The name of a header: what is in front of its first colon, with folds read as spaces, and only up to a NUL. */
  ghost predicate Named(h: string, name: string) {
    exists k :: 0 <= k < |h| && NamedUpTo(h, name, k)
  }

  ghost predicate NamedUpTo(h: string, name: string, k: nat)
    requires k < |h|
  {
    && h[k] == ':' && (forall j :: 0 <= j < k ==> h[j] != ':')
    && |name| <= k && (|name| < k ==> h[|name|] == '\0')
    && forall j :: 0 <= j < |name| ==> name[j] != '\0' && name[j] == if h[j] == '\n' then ' ' else h[j]
  }

  ghost predicate NameMatches(h: string, matches: string -> bool) {
    exists name :: Named(h, name) && matches(name)
  }

  /** A header has one name, and only if it has a colon. */
  lemma NameIs(h: string, name: string, other: string)
    ensures Named(h, name) && Named(h, other) ==> name == other
    ensures (exists n :: Named(h, n)) <==> ':' in h
  {
    if Named(h, name) && Named(h, other) {
      var k :| 0 <= k < |h| && NamedUpTo(h, name, k);
      var l :| 0 <= l < |h| && NamedUpTo(h, other, l);
      assert k == l;
      NoNulIn(h, name, k);
      NoNulIn(h, other, k);
    }
    if ':' in h {
      FirstColon(h);
    }
  }

  lemma NoNulIn(h: string, name: string, k: nat)
    requires k < |h| && NamedUpTo(h, name, k)
    ensures forall j :: 0 <= j < |name| ==> h[j] != '\0'
  {
    forall j | 0 <= j < |name| ensures h[j] != '\0' {
      assert name[j] != '\0';
    }
  }

  lemma FirstColon(h: string)
    requires ':' in h
    ensures Colon(Unfold(h)) < |h| && Named(h, CString(Unfold(h)[..Colon(Unfold(h))]))
  {
    hide Unfold, NamedUpTo;
    var u := Unfold(h);
    UnfoldAt(h);
    var i :| 0 <= i < |h| && h[i] == ':';
    assert u[i] == ':';
    ColonNames(h, u, Colon(u));
  }

  lemma ColonNames(h: string, u: string, k: nat)
    requires |u| == |h| && k < |u| && u[k] == ':' && forall j :: 0 <= j < k ==> u[j] != ':'
    requires forall j :: 0 <= j < |h| ==> u[j] == if h[j] == '\n' && j < |h| - 1 then ' ' else h[j]
    ensures NamedUpTo(h, CString(u[..k]), k)
  {
    var text := u[..k];
    hide CString;
    CStringIs(text);
    var name := CString(text);
    forall j | 0 <= j < |name| ensures name[j] != '\0' && name[j] == if h[j] == '\n' then ' ' else h[j] {
      assert name[j] == text[j];
    }
    assert forall j :: 0 <= j < k ==> h[j] == ':' ==> u[j] == ':';
  }

  /** What is before the first NUL ends there. */
  lemma {:induction false} CStringIs(s: string)
    ensures |CString(s)| < |s| ==> s[|CString(s)|] == '\0'
  {
    if s != "" && s[0] != '\0' {
      CStringIs(s[1..]);
    }
  }

  lemma UnfoldAt(h: string)
    ensures forall j :: 0 <= j < |h| ==> Unfold(h)[j] == if h[j] == '\n' && j < |h| - 1 then ' ' else h[j]
  {
    forall j | 0 <= j < |h| ensures Unfold(h)[j] == if h[j] == '\n' && j < |h| - 1 then ' ' else h[j] {
      FoldsInAt(h, 0, j);
    }
  }

  /** A header is hit exactly if its name matches. */
  lemma HitMeans(h: string, matches: string -> bool)
    ensures Hit(Unfold(h), matches) <==> NameMatches(h, matches)
  {
    UnfoldAt(h);
    if ':' in h {
      FirstColon(h);
      var name := CString(Unfold(h)[..Colon(Unfold(h))]);
      if NameMatches(h, matches) {
        var other :| Named(h, other) && matches(other);
        NameIs(h, name, other);
      }
    } else {
      NameIs(h, "", "");
      assert forall j :: 0 <= j < |h| ==> Unfold(h)[j] != ':';
    }
  }

  /** Some of the headers, in their order. */
  function Chosen(hs: seq<string>, stays: seq<bool>): seq<string>
    requires |stays| == |hs|
  {
    if hs == [] then [] else (if stays[0] then [hs[0]] else []) + Chosen(hs[1..], stays[1..])
  }

  /** Those whose names do not match. */
  ghost predicate StayIfUnmatched(hs: seq<string>, stays: seq<bool>, matches: string -> bool) {
    |stays| == |hs| && forall i :: 0 <= i < |hs| ==> (stays[i] <==> !NameMatches(hs[i], matches))
  }

  lemma {:induction false} KeepChosen(hs: seq<string>, stays: seq<bool>, matches: string -> bool)
    requires StayIfUnmatched(hs, stays, matches)
    ensures Keep(hs, matches) == Chosen(hs, stays)
    decreases |hs|
  {
    hide Hit, NameMatches, Unfold;
    if hs != [] {
      HitMeans(hs[0], matches);
      KeepChosen(hs[1..], stays[1..], matches);
    }
  }

  /** There is one way to take a text as headers. */
  lemma {:induction false} OnlyHeaders(hs: seq<string>)
    requires AreHeaders(hs)
    ensures Headers(Concat(hs)) == hs
    decreases |hs|
  {
    hide IsHeader, HeaderLen, Solid;
    if hs != [] {
      var rest := Concat(hs[1..]);
      OnlyHeaders(hs[1..]);
      assert rest != "" ==> rest[0] == hs[1][0];
      OneHeader(hs[0], rest);
      assert (hs[0] + rest)[..|hs[0]|] == hs[0] && (hs[0] + rest)[|hs[0]|..] == rest;
    }
  }

  lemma {:induction false} OneHeader(h: string, rest: string)
    requires IsHeader(h) && (rest != "" ==> !Blank(rest[0]))
    ensures h != "" && HeaderLen(h + rest) == |h|
    decreases |h|
  {
    hide FirstNl;
    var k := LineLen(h);
    LineIs(h);
    assert h[..|h|] == h;
    FirstLine(h[..k], h[k..] + rest);
    assert h[..k] + (h[k..] + rest) == h + rest;
    if k < |h| {
      SolidRest(h, k);
      assert (h + rest)[k] == h[k] && h[k - 1] == '\n' && Blank(h[k]);
      assert (h + rest)[k..] == h[k..] + rest;
      assert IsHeader(h[k..]) by { HeaderRest(h, k); }
      OneHeader(h[k..], rest);
    } else if rest != "" {
      assert (h + rest)[k] == rest[0];
    }
  }

  lemma HeaderRest(h: string, k: nat)
    requires IsHeader(h) && 0 < k < |h| && h[k - 1] == '\n'
    ensures IsHeader(h[k..])
  {
    SolidRest(h, k);
    var t := h[k..];
    forall p | 0 <= p < |t| - 1 && t[p] == '\n' ensures Blank(t[p + 1]) {
      assert h[k + p] == '\n';
    }
  }

  /** What is left of a mail: the headers whose names do not match, in their order, and all from the empty line on. */
  ghost predicate Cleaned(before: string, after: string, matches: string -> bool) {
    && (forall hs, body, stays :: CleansFrom(before, hs, body, stays, matches) ==> after == Concat(Chosen(hs, stays)) + "\n" + body)
    && ((forall b :: !BodyAt(before, b)) ==> after == before)
  }

  ghost predicate CleansFrom(m: string, hs: seq<string>, body: string, stays: seq<bool>, matches: string -> bool) {
    m == Concat(hs) + "\n" + body && WholeHeaders(hs) && StayIfUnmatched(hs, stays, matches)
  }

  /** Each header ends in a newline and has no empty line in it; its other newlines are followed by a space or a tab, and no header but the first starts with one. */
  ghost predicate WholeHeaders(hs: seq<string>) {
    && (forall i :: 0 <= i < |hs| ==> WholeHeader(hs[i]))
    && forall i :: 0 < i < |hs| ==> hs[i][0] != ' ' && hs[i][0] != '\t'
  }

  ghost predicate WholeHeader(h: string) {
    && h != "" && h[0] != '\n' && h[|h| - 1] == '\n'
    && forall p :: 0 <= p < |h| - 1 && h[p] == '\n' ==> h[p + 1] == ' ' || h[p + 1] == '\t'
  }

  lemma {:induction false} WholeAre(hs: seq<string>)
    requires WholeHeaders(hs)
    ensures AreHeaders(hs)
  {
    if hs != [] {
      assert WholeHeader(hs[0]);
      assert forall i :: 0 <= i < |hs[1..]| ==> hs[1..][i] == hs[i + 1];
      WholeAre(hs[1..]);
      assert |hs| > 1 ==> WholeHeader(hs[1]);
    }
  }

  lemma RemovedMeans(hs: seq<string>, body: string, stays: seq<bool>, matches: string -> bool)
    requires AreHeaders(hs) && StayIfUnmatched(hs, stays, matches)
    ensures Removed(Concat(hs) + "\n" + body, matches) == Concat(Chosen(hs, stays)) + "\n" + body
  {
    hide Solid, AreHeaders, Headers, FindBody, Keep, Chosen, NameMatches, Concat;
    var h, m := Concat(hs), Concat(hs) + "\n" + body;
    SolidConcat(hs);
    assert m[..|h|] == h;
    assert BodyAt(m, |h| + 1);
    BodyIs(m, |h| + 1);
    OnlyHeaders(hs);
    KeepChosen(hs, stays, matches);
    assert m[|h|..] == "\n" + body;
    assert Concat(Chosen(hs, stays)) + ("\n" + body) == Concat(Chosen(hs, stays)) + "\n" + body;
  }

  lemma RemovedCleans(m: string, matches: string -> bool)
    ensures Cleaned(m, Removed(m, matches), matches)
  {
    hide AreHeaders, NameMatches, Chosen, Concat, Keep, Headers, BodyAt;
    forall hs, body, stays | CleansFrom(m, hs, body, stays, matches)
      ensures Removed(m, matches) == Concat(Chosen(hs, stays)) + "\n" + body
    {
      WholeAre(hs);
      RemovedMeans(hs, body, stays, matches);
    }
    FoundBody(m);
  }

  /** A header named in front of a colon is removed if its name matches; one that matches nothing stays, and so does one without a colon. */
  lemma OneRemoved(before: seq<string>, h: string, after: seq<string>, body: string, stays: seq<bool>, name: string, matches: string -> bool)
    requires WholeHeaders(before + [h] + after) && StayIfUnmatched(before + [h] + after, stays, matches)
    ensures Named(h, name) ==> (stays[|before|] <==> !matches(name))
    ensures ':' !in h ==> stays[|before|]
    ensures var left := Chosen(before, stays[..|before|]) + (if stays[|before|] then [h] else []) + Chosen(after, stays[|before| + 1..]);
            Removed(Concat(before + [h] + after) + "\n" + body, matches) == Concat(left) + "\n" + body
  {
    hide AreHeaders, WholeHeaders, Removed, Concat, Named;
    var hs := before + [h] + after;
    WholeAre(hs);
    RemovedMeans(hs, body, stays, matches);
    assert hs[|before|] == h;
    NameIs(h, "", "");
    if Named(h, name) {
      forall other | Named(h, other) ensures other == name {
        NameIs(h, name, other);
      }
    }
    ChosenAround(before, h, after, stays);
  }

  lemma {:induction false} ChosenAround(before: seq<string>, h: string, after: seq<string>, stays: seq<bool>)
    requires |stays| == |before| + 1 + |after|
    ensures Chosen(before + [h] + after, stays)
            == Chosen(before, stays[..|before|]) + (if stays[|before|] then [h] else []) + Chosen(after, stays[|before| + 1..])
    decreases |before|
  {
    if before == [] {
      assert before + [h] + after == [h] + after && ([h] + after)[1..] == after;
    } else {
      var rest := stays[1..];
      assert (before + [h] + after)[1..] == before[1..] + [h] + after;
      ChosenAround(before[1..], h, after, rest);
      assert rest[..|before| - 1] == stays[..|before|][1..] && rest[|before|..] == stays[|before| + 1..];
      ChosenFirst(before, stays[..|before|]);
    }
  }

  lemma ChosenFirst(hs: seq<string>, stays: seq<bool>)
    requires hs != [] && |stays| == |hs|
    ensures Chosen(hs, stays) == (if stays[0] then [hs[0]] else []) + Chosen(hs[1..], stays[1..])
  {
  }

  // ---------------------------------------------------------------- the fold positions after a removal

  /** Positions behind a removed piece move, and those in it go. */
  function FixUp(at: seq<nat>, off: nat, len: nat): seq<nat> {
    if at == [] then []
    else (if at[0] >= off + len then [at[0] - len] else if at[0] >= off then [] else [at[0]]) + FixUp(at[1..], off, len)
  }

  lemma {:induction false} FixUpAppend(a: seq<nat>, b: seq<nat>, off: nat, len: nat)
    ensures FixUp(a + b, off, len) == FixUp(a, off, len) + FixUp(b, off, len)
    decreases |a|
  {
    if a == [] {
      assert a + b == b;
    } else {
      assert (a + b)[1..] == a[1..] + b;
      FixUpAppend(a[1..], b, off, len);
    }
  }

  lemma {:induction false} FixUpBefore(at: seq<nat>, off: nat, len: nat)
    requires forall p :: p in at ==> p < off
    ensures FixUp(at, off, len) == at
    decreases |at|
  {
    if at != [] {
      assert at[0] in at && forall p :: p in at[1..] ==> p in at;
      FixUpBefore(at[1..], off, len);
    }
  }

  lemma {:induction false} FixUpWithin(at: seq<nat>, off: nat, len: nat)
    requires forall p :: p in at ==> off <= p < off + len
    ensures FixUp(at, off, len) == []
    decreases |at|
  {
    if at != [] {
      assert at[0] in at && forall p :: p in at[1..] ==> p in at;
      FixUpWithin(at[1..], off, len);
    }
  }

  lemma {:induction false} FixUpBehindIn(h: string, at: nat, off: nat, len: nat)
    requires at >= off
    ensures FixUp(FoldsIn(h, at + len), off, len) == FoldsIn(h, at)
    decreases |h|
  {
    hide FixUp;
    FixUpNone(off, len);
    if |h| > 1 {
      FixUpBehindIn(h[1..], at + 1, off, len);
      var rest := FoldsIn(h[1..], at + len + 1);
      assert FoldsIn(h[1..], at + 1 + len) == rest;
      FixUpFirst(at + len, rest, off, len);
      assert [] + rest == rest;
    }
  }

  lemma FixUpHead(done: seq<nat>, at: seq<nat>, off: nat, len: nat)
    requires at != []
    ensures var p := at[0];
            done + FixUp(at, off, len)
            == (if p >= off + len then done + [p - len] else if p >= off then done else done + [p]) + FixUp(at[1..], off, len)
  {
  }

  lemma FixUpNone(off: nat, len: nat)
    ensures FixUp([], off, len) == []
  {
  }

  lemma FixUpFirst(p: nat, rest: seq<nat>, off: nat, len: nat)
    requires p >= off + len
    ensures FixUp([p] + rest, off, len) == [p - len] + FixUp(rest, off, len)
  {
    assert ([p] + rest)[1..] == rest;
  }

  lemma {:induction false} FixUpBehind(hs: seq<string>, at: nat, off: nat, len: nat)
    requires at >= off
    ensures FixUp(Folds(hs, at + len), off, len) == Folds(hs, at)
    decreases |hs|
  {
    hide FixUp, Folds, FoldsIn;
    if hs == [] {
      NoFolds(at);
      NoFolds(at + len);
      FixUpNone(off, len);
    } else {
      var h, rest := hs[0], hs[1..];
      FoldsOf(hs, at + len);
      FoldsOf(hs, at);
      assert at + len + |h| == at + |h| + len;
      FixUpAppend(FoldsIn(h, at + len), Folds(rest, at + |h| + len), off, len);
      FixUpBehindIn(h, at, off, len);
      FixUpBehind(rest, at + |h|, off, len);
    }
  }

  lemma {:induction false} FoldsAppend(a: seq<string>, b: seq<string>, off: nat)
    ensures Folds(a + b, off) == Folds(a, off) + Folds(b, off + |Concat(a)|)
    ensures UnfoldAll(a + b) == UnfoldAll(a) + UnfoldAll(b) && Concat(a + b) == Concat(a) + Concat(b)
    decreases |a|
  {
    hide FoldsIn, Unfold, UnfoldAll, Folds, Concat;
    ConcatAppend(a, b);
    UnfoldAppend(a, b);
    if a == [] {
      NoFolds(off);
      assert a + b == b && [] + Folds(b, off) == Folds(b, off);
    } else {
      assert (a + b)[1..] == a[1..] + b;
      FoldsAppend(a[1..], b, off + |a[0]|);
      FoldsOf(a, off);
      FoldsOf(a + b, off);
      Assoc3(FoldsIn(a[0], off), Folds(a[1..], off + |a[0]|), Folds(b, off + |Concat(a)|));
    }
  }

  lemma NoFolds(off: nat)
    ensures Folds([], off) == [] && Concat([]) == ""
  {
  }

  lemma FoldsOf(hs: seq<string>, off: nat)
    requires hs != []
    ensures Folds(hs, off) == FoldsIn(hs[0], off) + Folds(hs[1..], off + |hs[0]|) && |Concat(hs)| == |hs[0]| + |Concat(hs[1..])|
  {
    hide FoldsIn;
  }

  lemma {:induction false} UnfoldAppend(a: seq<string>, b: seq<string>)
    ensures UnfoldAll(a + b) == UnfoldAll(a) + UnfoldAll(b)
    decreases |a|
  {
    hide Unfold;
    if a == [] {
      assert a + b == b;
    } else {
      assert (a + b)[1..] == a[1..] + b;
      UnfoldAppend(a[1..], b);
    }
  }

  /** Removing a header removes its folds, and moves those behind it. */
  lemma FoldsFixed(before: seq<string>, h: string, after: seq<string>)
    ensures FixUp(Folds(before + [h] + after, 0), |Concat(before)|, |h|) == Folds(before + after, 0)
  {
    hide FoldsIn, FixUp, Unfold, UnfoldAll;
    var off, len := |Concat(before)|, |h|;
    OneFolds(h, off);
    FoldsAppend(before + [h], after, 0);
    FoldsAppend(before, [h], 0);
    FoldsAppend(before, after, 0);
    var a, b, c := Folds(before, 0), FoldsIn(h, off), Folds(after, off + len);
    FixUpAppend(a + b, c, off, len);
    FixUpAppend(a, b, off, len);
    FoldsRange(before, 0);
    FixUpBefore(a, off, len);
    FoldsWithin(h, off);
    FixUpWithin(b, off, len);
    FixUpBehind(after, off, off, len);
    assert a + [] + Folds(after, off) == a + Folds(after, off);
  }

  lemma OneFolds(h: string, off: nat)
    ensures Folds([h], off) == FoldsIn(h, off) && Concat([h]) == h
  {
    assert [h][1..] == [] && h + "" == h && FoldsIn(h, off) + [] == FoldsIn(h, off);
  }

  lemma FoldsWithin(h: string, off: nat)
    ensures forall p :: p in FoldsIn(h, off) ==> off <= p < off + |h|
  {
    if h != "" {
      FoldsInAt(h, off, 0);
    }
  }

  // ---------------------------------------------------------------- unfolded headers are lines

  lemma {:induction false} UnfoldLine(h: string)
    requires h != ""
    ensures OneLine(Unfold(h)) && Unfold(h)[|h| - 1] == h[|h| - 1]
    decreases |h|
  {
    if |h| > 1 {
      UnfoldLine(h[1..]);
    }
  }

  /** The line at the start of unfolded headers is the first of them. */
  lemma FirstUnfolded(hs: seq<string>, tail: string)
    requires AreHeaders(hs) && hs != []
    ensures LineLen(UnfoldAll(hs) + tail) == |hs[0]| && (UnfoldAll(hs) + tail)[..|hs[0]|] == Unfold(hs[0])
    ensures (UnfoldAll(hs) + tail)[|hs[0]|..] == UnfoldAll(hs[1..]) + tail
  {
    hide Solid, Unfold, LineLen;
    var line, rest := Unfold(hs[0]), UnfoldAll(hs[1..]);
    UnfoldLine(hs[0]);
    FirstLine(line, rest + tail);
    assert UnfoldAll(hs) == line + rest;
    FirstOfTwo(line, rest, tail);
  }

  lemma FirstOfTwo(line: string, rest: string, tail: string)
    ensures line + rest + tail == line + (rest + tail) && (line + rest + tail)[..|line|] == line
    ensures (line + rest + tail)[|line|..] == rest + tail
  {
  }

  lemma {:induction false} AreAppend(a: seq<string>, b: seq<string>)
    requires AreHeaders(a + b)
    ensures AreHeaders(b) && (a != [] && b != [] ==> b[0] != "" && !Blank(b[0][0]))
    decreases |a|
  {
    if a == [] {
      assert a + b == b;
    } else {
      assert (a + b)[1..] == a[1..] + b;
      AreAppend(a[1..], b);
      if |a| == 1 && b != [] {
        assert (a + b)[1] == b[0];
      }
    }
  }

  /** Headers stay headers when one is removed. */
  lemma {:induction false} AreWithout(before: seq<string>, h: string, after: seq<string>)
    requires AreHeaders(before + [h] + after)
    ensures AreHeaders(before + after)
    decreases |before|
  {
    hide IsHeader;
    assert before + [h] + after == before + ([h] + after);
    AreAppend(before + [h], after);
    if before == [] {
      assert before + after == after;
    } else {
      assert (before + [h] + after)[1..] == before[1..] + [h] + after;
      AreWithout(before[1..], h, after);
      assert (before + after)[1..] == before[1..] + after;
      if |before| > 1 {
        assert (before + [h] + after)[1] == before[1] == (before + after)[1];
      }
    }
  }

  lemma {:induction false} KeepAppend(a: seq<string>, b: seq<string>, matches: string -> bool)
    ensures Keep(a + b, matches) == Keep(a, matches) + Keep(b, matches)
    decreases |a|
  {
    if a == [] {
      assert a + b == b;
    } else {
      assert (a + b)[1..] == a[1..] + b;
      KeepAppend(a[1..], b, matches);
    }
  }

  lemma KeepWithout(before: seq<string>, h: string, after: seq<string>, matches: string -> bool)
    requires Hit(Unfold(h), matches)
    ensures Keep(before + [h] + after, matches) == Keep(before + after, matches)
  {
    KeepAppend(before + [h], after, matches);
    KeepAppend(before, [h], matches);
    KeepAppend(before, after, matches);
    assert [h][1..] == [];
  }

  lemma {:induction false} KeepNoneHit(hs: seq<string>, matches: string -> bool)
    requires forall h :: h in hs ==> !Hit(Unfold(h), matches)
    ensures Keep(hs, matches) == hs
    decreases |hs|
  {
    if hs != [] {
      assert hs[0] in hs;
      KeepNoneHit(hs[1..], matches);
    }
  }
}

module MailHeaders {
  import opened Sequences
  import opened LineStates
  import opened MailText
  import opened HeaderText

  /** No newline for a while. */
  lemma {:induction false} ScanSkip(m: string, k: nat, off: nat)
    requires k <= |m| && forall j :: 0 <= j < k ==> m[j] != '\n'
    ensures Scan(m, off) == Scan(m[k..], off + k)
    decreases k
  {
    if k == 0 {
      assert m[0..] == m;
    } else {
      assert m[1..][k - 1..] == m[k..];
      if |m| > 1 {
        assert forall j :: 0 <= j < k - 1 ==> m[1..][j] == m[j + 1];
        ScanSkip(m[1..], k - 1, off + 1);
        ScanStep(m, off);
        assert [] + Scan(m[1..], off + 1) == Scan(m[1..], off + 1);
      } else {
        ScanEnd(m, off);
        ScanEnd(m[k..], off + k);
      }
    }
  }

  lemma ScanNewline(m: string, off: nat)
    requires |m| > 0 && m[0] == '\n'
    ensures Scan(m, off) == (if |m| > 1 && Blank(m[1]) then [off] else []) + Scan(m[1..], off + 1)
  {
    if |m| == 1 {
      ScanEnd(m[1..], off + 1);
    }
  }

  lemma ScanTo(h: string, from: nat, k: nat)
    requires from <= k <= |h| && forall j :: from <= j < k ==> h[j] != '\n'
    ensures Scan(h[from..], from) == Scan(h[k..], k)
  {
    hide Scan;
    assert forall j :: 0 <= j < k - from ==> h[from..][j] == h[from + j];
    ScanSkip(h[from..], k - from, from);
    assert h[from..][k - from..] == h[k..];
  }

  lemma ScanAt(h: string, k: nat)
    requires k + 1 < |h| && h[k] == '\n'
    ensures Scan(h[k..], k) == (if Blank(h[k + 1]) then [k] else []) + Scan(h[k + 1..], k + 1)
  {
    hide Scan, Blank;
    ScanNewline(h[k..], k);
    assert h[k..][1..] == h[k + 1..] && h[k..][1] == h[k + 1];
  }

  /** A mail in memory: its text, where the body starts, and where its headers are folded. */
  class Mail {
    var data: array<char>
    var size: nat
    var body: nat
    var wrapped: seq<nat>
    var wrapchar: char

    ghost function Text(): string
      reads this, data
      requires size <= data.Length
    {
      data[..size]
    }

    constructor (text: string)
      ensures fresh(data) && size == data.Length && Text() == text && body == FindBody(text) && wrapped == [] && wrapchar == '\0'
    {
      data := new char[|text|](i requires 0 <= i < |text| => text[i]);
      size, body, wrapped, wrapchar := |text|, FindBody(text), [], '\0';
    }

    /** The first byte c from a position on, or the end. */
    method Find(c: char, from: nat, end: nat) returns (k: nat)
      requires from <= end <= data.Length
      ensures from <= k <= end && (k < end ==> data[k] == c) && forall j :: from <= j < k ==> data[j] != c
    {
      k := from;
      while k < end && data[k] != c
        invariant from <= k <= end && forall j :: from <= j < k ==> data[j] != c
      {
        k := k + 1;
      }
    }

    /** List the newlines of the header area that are followed by a blank. */
    method FillWrapped()
      requires body <= size <= data.Length && wrapped == []
      modifies this`wrapped, this`wrapchar
      ensures wrapped == Scan(Text()[..body], 0) && wrapchar == '\0'
    {
      hide Scan, Blank;
      wrapchar := '\0';
      ghost var h := Text()[..body];
      ghost var all := Scan(h, 0);
      assert h[0..] == h && |h| == body && forall j :: 0 <= j < body ==> h[j] == data[j];
      var ptr := 0;
      while true
        invariant ptr <= body && wrapped + Scan(h[ptr..], ptr) == all && wrapchar == '\0'
        invariant forall j :: 0 <= j < body ==> h[j] == data[j]
        decreases size - ptr
      {
        var k := Find('\n', ptr, size);
        ghost var skip := if k < body then k else body;
        ScanTo(h, ptr, skip);
        if k == size {
          ScanEnd(h[skip..], skip);
          break;
        }
        if k + 1 >= body {
          ScanEnd(h[skip..], skip);
          break;
        }
        ScanAt(h, k);
        Assoc3(wrapped, if Blank(h[k + 1]) then [k] else [], Scan(h[k + 1..], k + 1));
        ptr := k + 1;
        var blank := IsBlank(data[ptr]);
        if blank {
          wrapped := wrapped + [k];
        }
      }
    }

    method IsBlank(c: char) returns (b: bool)
      ensures b == Blank(c)
    {
      b := c == ' ' || c == '\t';
    }

    /** Write a byte at all folds. */
    method SetWrapped(ch: char)
      requires size <= data.Length && forall p :: p in wrapped ==> p < size
      modifies this`wrapchar, data
      ensures wrapchar == ch
      ensures Text() == if old(wrapchar) == ch then old(Text()) else SetAll(old(Text()), wrapped, ch)
    {
      if wrapchar == ch {
        return;
      }
      wrapchar := ch;
      for i := 0 to |wrapped|
        invariant wrapchar == ch
        invariant forall k :: 0 <= k < size ==> data[k] == if k in wrapped[..i] then ch else old(data[k])
      {
        assert wrapped[i] in wrapped;
        assert forall k :: k in wrapped[..i + 1] <==> k in wrapped[..i] || k == wrapped[i];
        data[wrapped[i]] := ch;
      }
      assert wrapped[..|wrapped|] == wrapped;
      assert Text() == SetAll(old(Text()), wrapped, ch);
    }

    /** Unfolded headers, and what follows them, are the text; the body starts behind the empty line. */
    ghost predicate Unfolded(hs: seq<string>, tail: string)
      reads this, data
    {
      && size <= data.Length && Text() == UnfoldAll(hs) + tail && AreHeaders(hs)
      && if body == 0 then hs == [] else body == |UnfoldAll(hs)| + 1 && tail != "" && tail[0] == '\n'
    }

    /** Where the first colon of a line is. */
    method ColonOf(line: string) returns (k: nat)
      ensures k == Colon(line)
    {
      k := 0;
      while k < |line| && line[k] != ':'
        invariant k <= |line| && forall j :: 0 <= j < k ==> line[j] != ':'
      {
        k := k + 1;
      }
      ColonIs(line, k);
    }

    /** Whether the name in front of the first colon of a line matches. */
    method TryLine(off: nat, matches: string -> bool) returns (hit: bool, len: nat)
      requires off <= size <= data.Length
      ensures len == LineLen(Text()[off..]) && hit == Hit(Text()[off..off + len], matches)
    {
      hide LineLen;
      var text := data[..size];
      len := LineLength(text, off);
      var line := text[off..off + len];
      var colon := ColonOf(line);
      hit := colon < len && matches(CString(line[..colon]));
    }

    /** A header whose name matches: where its line starts, and how long it is. */
    method MatchHeader(matches: string -> bool, ghost hs: seq<string>, ghost tail: string)
      returns (found: bool, off: nat, len: nat, ghost i: nat)
      requires Unfolded(hs, tail)
      ensures found ==> i < |hs| && off == |UnfoldAll(hs[..i])| && len == |hs[i]| && Hit(Unfold(hs[i]), matches)
      ensures !found ==> forall h :: h in hs ==> !Hit(Unfold(h), matches)
      ensures found <==> exists h :: h in hs && NameMatches(h, matches)
      ensures found ==> NameMatches(hs[i], matches)
    {
      hide Hit, Unfold, LineLen, At, NameMatches;
      forall h ensures Hit(Unfold(h), matches) <==> NameMatches(h, matches) {
        HitMeans(h, matches);
      }
      off, i, found, len := 0, 0, false, 0;
      ghost var text := Text();
      ghost var last := false;
      AtStart(text, hs, tail);
      while off < body && off < size
        invariant i <= |hs| && off <= size && forall k :: 0 <= k < i ==> !Hit(Unfold(hs[k]), matches)
        invariant if last then i == |hs| && off == body else At(text, hs, tail, i, off)
        decreases size - off
      {
        if i == |hs| {
          AtEnd(text, hs, tail, off, matches);
        } else {
          AtNext(text, hs, tail, i, off);
        }
        found, len := TryLine(off, matches);
        if found {
          return;
        }
        if i == |hs| {
          last := true;
        } else {
          i := i + 1;
        }
        off := off + len;
      }
      if !last {
        AtBefore(text, hs, tail, i, off);
      }
    }

    /** Take a piece out of the text. */
    method Cut(off: nat, len: nat)
      requires off + len <= size <= data.Length
      modifies this`size, data
      ensures size == old(size) - len && Text() == old(Text())[..off] + old(Text())[off + len..]
    {
      ghost var was := Text();
      for k := off to size - len
        invariant size == old(size) && |was| == size
        invariant forall j :: 0 <= j < off || k <= j < size ==> data[j] == was[j]
        invariant forall j :: off <= j < k ==> data[j] == was[j + len]
      {
        data[k] := data[k + len];
      }
      size := size - len;
      CutText(was, Text(), off, len);
    }

    /** The fold positions after a piece has been taken out: those behind it move, and those in it go. */
    method FixWrapped(off: nat, len: nat)
      modifies this`wrapped
      ensures wrapped == FixUp(old(wrapped), off, len)
    {
      hide FixUp;
      var i := 0;
      ghost var done: seq<nat>, rest: seq<nat> := [], wrapped;
      while i < |wrapped|
        invariant i == |done| && wrapped == done + rest
        invariant done + FixUp(rest, off, len) == FixUp(old(wrapped), off, len)
        decreases |rest|
      {
        var wrap := wrapped[i];
        FixUpHead(done, rest, off, len);
        AtFirst(done, rest);
        if wrap >= off + len {
          wrapped := wrapped[i := wrap - len];
          done := done + [wrap - len];
          i := i + 1;
        } else if wrap >= off {
          wrapped := wrapped[..i] + wrapped[i + 1..];
        } else {
          done := done + [wrap];
          i := i + 1;
        }
        rest := rest[1..];
      }
      FixUpNone(off, len);
    }

    /** Remove the first match, with its folds. */
    method RemoveOne(off: nat, len: nat, ghost hs: seq<string>, ghost tail: string, ghost i: nat)
      requires Unfolded(hs, tail) && wrapped == Folds(hs, 0) && i < |hs| && off == |UnfoldAll(hs[..i])| && len == |hs[i]|
      modifies this`size, this`body, this`wrapped, data
      ensures Unfolded(hs[..i] + hs[i + 1..], tail) && wrapped == Folds(hs[..i] + hs[i + 1..], 0)
      ensures size < old(size) && (body == 0 <==> old(body) == 0)
    {
      hide UnfoldAll, Folds, FixUp, Unfold, Solid;
      ghost var before, h, after := hs[..i], hs[i], hs[i + 1..];
      assert hs == before + [h] + after;
      Around(before, h, after, tail);
      AreWithout(before, h, after);
      HeaderThere(before, h, after);
      Cut(off, len);
      body := body - len;
      SameSize(before);
      FoldsFixed(before, h, after);
      FixWrapped(off, len);
    }

    /** As long as there is a match, remove it. */
    method RemoveAll(matches: string -> bool, ghost all: seq<string>, ghost tail: string) returns (ghost hs: seq<string>)
      requires Unfolded(all, tail) && wrapped == Folds(all, 0)
      modifies this`size, this`body, this`wrapped, data
      ensures Unfolded(hs, tail) && wrapped == Folds(hs, 0) && hs == Keep(all, matches) && (body == 0 <==> old(body) == 0)
    {
      hide Folds, UnfoldAll, Unfold, Keep, Hit, AreHeaders, Unfolded;
      hs := all;
      var found, off, len;
      ghost var i: nat;
      found, off, len, i := MatchHeader(matches, hs, tail);
      while found
        invariant Unfolded(hs, tail) && wrapped == Folds(hs, 0) && (body == 0 <==> old(body) == 0)
        invariant Keep(hs, matches) == Keep(all, matches)
        invariant found ==> i < |hs| && off == |UnfoldAll(hs[..i])| && len == |hs[i]| && Hit(Unfold(hs[i]), matches)
        invariant !found ==> forall h :: h in hs ==> !Hit(Unfold(h), matches)
        decreases found, size
      {
        assert hs == hs[..i] + [hs[i]] + hs[i + 1..];
        KeepWithout(hs[..i], hs[i], hs[i + 1..], matches);
        RemoveOne(off, len, hs, tail, i);
        hs := hs[..i] + hs[i + 1..];
        found, off, len, i := MatchHeader(matches, hs, tail);
      }
      KeepNoneHit(hs, matches);
    }

    /** Remove all headers whose name matches a pattern. */
    method RemoveHeader(pattern: string, matches: string -> bool) returns (ok: bool)
      requires size <= data.Length && body == FindBody(Text())
      modifies this, data
      ensures ok == (pattern != "") && data == old(data) && size <= data.Length
      ensures !ok ==> Text() == old(Text())
      ensures ok ==> Text() == Removed(old(Text()), matches) && body == FindBody(Text())
      ensures ok ==> Cleaned(old(Text()), Text(), matches)
      ensures ok ==> wrapped == Scan(Text()[..body], 0) && wrapchar == '\n'
    {
      hide Scan, Headers, Folds, UnfoldAll, Unfold, FindBody, SetAll, Hit, Keep, AreHeaders, Removed, HeadersOf, TailOf, Cleaned;
      if pattern == "" {
        return false;
      }
      ghost var text := Text();
      ghost var all, tail := HeadersOf(text), TailOf(text);
      TextSplits(text);
      wrapped := [];
      wrapchar := '\0';
      FillWrapped();
      Refold(all, tail);
      SetWrapped(' ');
      ghost var hs := RemoveAll(matches, all, tail);
      Refold(hs, tail);
      SetWrapped('\n');
      RemovedIs(text, matches, hs, tail, body);
      assert Cleaned(text, Removed(text, matches), matches) by { RemovedCleans(text, matches); }
      ok := true;
    }
  }

  /** The headers of a mail, and the rest of it from the empty line on. */
  ghost function HeadersOf(m: string): seq<string> {
    if FindBody(m) == 0 then [] else Headers(m[..FindBody(m) - 1])
  }

  ghost function TailOf(m: string): string {
    if FindBody(m) == 0 then m else m[FindBody(m) - 1..]
  }

  /** A text from which a piece is cut, byte by byte. */
  lemma CutText(was: string, now: string, off: nat, len: nat)
    requires off + len <= |was| && |now| == |was| - len
    requires forall j :: 0 <= j < off ==> now[j] == was[j]
    requires forall j :: off <= j < |now| ==> now[j] == was[j + len]
    ensures now == was[..off] + was[off + len..]
  {
  }

  /** Changing, removing or passing the first of the rest. */
  lemma AtFirst(done: seq<nat>, rest: seq<nat>)
    requires rest != []
    ensures var all, i := done + rest, |done|;
            && all[i] == rest[0] && all[..i] + all[i + 1..] == done + rest[1..] && all == done + [rest[0]] + rest[1..]
            && forall p: nat :: all[i := p] == done + [p] + rest[1..]
  {
  }

  /** So many headers are in front of an offset, and the others behind it. */
  ghost predicate At(text: string, hs: seq<string>, tail: string, i: nat, off: nat) {
    i <= |hs| && off <= |text| && off == |UnfoldAll(hs[..i])| && text[off..] == UnfoldAll(hs[i..]) + tail && AreHeaders(hs[i..])
  }

  lemma AtStart(text: string, hs: seq<string>, tail: string)
    requires text == UnfoldAll(hs) + tail && AreHeaders(hs)
    ensures At(text, hs, tail, 0, 0)
  {
    assert hs[0..] == hs && hs[..0] == [] && text[0..] == text;
  }

  lemma AtNext(text: string, hs: seq<string>, tail: string, i: nat, off: nat)
    requires At(text, hs, tail, i, off) && i < |hs|
    ensures var len := LineLen(text[off..]);
            && len == |hs[i]| > 0 && off + len <= |text| && text[off..off + len] == Unfold(hs[i])
            && At(text, hs, tail, i + 1, off + len) && off == |UnfoldAll(hs[..i])|
  {
    hide UnfoldAll, LineLen, Unfold, Solid;
    var rest := text[off..];
    var len := |hs[i]|;
    FirstUnfolded(hs[i..], tail);
    FoldsAppend(hs[..i], [hs[i]], 0);
    assert hs[..i + 1] == hs[..i] + [hs[i]] && hs[i..][1..] == hs[i + 1..];
    assert UnfoldAll([hs[i]]) == Unfold(hs[i]) by { OneUnfolded(hs[i]); }
    assert text[off..off + len] == rest[..len] && text[off + len..] == rest[len..];
  }

  lemma OneUnfolded(h: string)
    ensures UnfoldAll([h]) == Unfold(h)
  {
    assert [h][1..] == [];
  }

  lemma AtEnd(text: string, hs: seq<string>, tail: string, off: nat, matches: string -> bool)
    requires At(text, hs, tail, |hs|, off) && tail != "" && tail[0] == '\n'
    ensures LineLen(text[off..]) == 1 && off + 1 <= |text| && !Hit(text[off..off + 1], matches) && off == |UnfoldAll(hs)|
  {
    assert hs[..|hs|] == hs;
    FirstNlIs(text[off..], 0);
    assert text[off..off + 1] == "\n";
    ColonIs("\n", 1);
  }

  /** As long as headers are left, the body is not reached. */
  lemma AtBefore(text: string, hs: seq<string>, tail: string, i: nat, off: nat)
    requires At(text, hs, tail, i, off)
    ensures i < |hs| ==> off < |UnfoldAll(hs)| && off < |text|
  {
    FoldsAppend(hs[..i], hs[i..], 0);
    assert hs[..i] + hs[i..] == hs;
  }

  lemma ColonIs(line: string, k: nat)
    requires k <= |line| && (k < |line| ==> line[k] == ':') && forall j :: 0 <= j < k ==> line[j] != ':'
    ensures Colon(line) == k
  {
  }

  lemma TextSplits(m: string)
    ensures var hs, tail, b := HeadersOf(m), TailOf(m), FindBody(m);
            && m == Concat(hs) + tail && AreHeaders(hs) && |UnfoldAll(hs)| == |Concat(hs)|
            && Scan(m[..b], 0) == Folds(hs, 0)
            && if b == 0 then hs == [] else b == |Concat(hs)| + 1 && tail != "" && tail[0] == '\n'
  {
    hide Headers, Scan, AreHeaders, UnfoldAll, Folds, FindBody;
    var b := FindBody(m);
    SameSize(HeadersOf(m));
    if b == 0 {
      ScanEnd(m[..0], 0);
      NoHeaders();
      assert m == Concat([]) + m;
    } else {
      FoundBody(m);
      var h := m[..b - 1];
      HeadersAre(h);
      ScanHeaders(Headers(h), 0);
      assert m[..b] == h + "\n";
      assert m == h + m[b - 1..];
    }
  }

  lemma NoHeaders()
    ensures AreHeaders([]) && Folds([], 0) == [] && UnfoldAll([]) == ""
  {
  }

  /** Around a header are the headers before and after it. */
  lemma Around(before: seq<string>, h: string, after: seq<string>, tail: string)
    ensures var text := UnfoldAll(before + [h] + after) + tail;
            && |text| >= |UnfoldAll(before)| + |h|
            && text[..|UnfoldAll(before)|] + text[|UnfoldAll(before)| + |h|..] == UnfoldAll(before + after) + tail
            && |UnfoldAll(before + [h] + after)| == |UnfoldAll(before + after)| + |h|
  {
    hide UnfoldAll, Unfold, Folds;
    FoldsAppend(before + [h], after, 0);
    FoldsAppend(before, [h], 0);
    FoldsAppend(before, after, 0);
    OneUnfolded(h);
    CutOut(UnfoldAll(before), Unfold(h), UnfoldAll(after), tail);
  }

  lemma CutOut(a: string, b: string, c: string, d: string)
    ensures var text := a + b + c + d; text[..|a|] + text[|a| + |b|..] == a + c + d
  {
    var text := a + b + c + d;
    assert text[..|a|] == a && text[|a| + |b|..] == c + d;
  }

  lemma {:induction false} HeaderThere(before: seq<string>, h: string, after: seq<string>)
    requires AreHeaders(before + [h] + after)
    ensures h != ""
    decreases |before|
  {
    if before != [] {
      assert (before + [h] + after)[1..] == before[1..] + [h] + after;
      HeaderThere(before[1..], h, after);
    }
  }

  /** The headers that are left and the rest are the mail without the matching headers, and its body starts where it should. */
  lemma RemovedIs(m: string, matches: string -> bool, hs: seq<string>, tail: string, body: nat)
    requires hs == Keep(HeadersOf(m), matches) && AreHeaders(hs) && tail == TailOf(m)
    requires if FindBody(m) == 0 then body == 0 && hs == [] else body == |Concat(hs)| + 1
    ensures Concat(hs) + tail == Removed(m, matches) && body == FindBody(Concat(hs) + tail)
    ensures Scan((Concat(hs) + tail)[..body], 0) == Folds(hs, 0)
  {
    hide Headers, Scan, AreHeaders, UnfoldAll, Folds, FindBody, Keep, Solid, Removed, HeadersOf, TailOf, BodyAt;
    TextSplits(m);
    ScanHeaders(hs, 0);
    if FindBody(m) == 0 {
      NothingRemoved(m, matches);
      assert Concat([]) + m == m;
      NoHeaders();
    } else {
      SolidConcat(hs);
      BehindHeaders(Concat(hs), tail);
      BodyIs(Concat(hs) + tail, body);
      SomeRemoved(m, matches);
    }
  }

  lemma NothingRemoved(m: string, matches: string -> bool)
    requires FindBody(m) == 0
    ensures Removed(m, matches) == m && Scan(m[..0], 0) == [] && TailOf(m) == m
  {
  }

  lemma SomeRemoved(m: string, matches: string -> bool)
    requires FindBody(m) > 0
    ensures Removed(m, matches) == Concat(Keep(HeadersOf(m), matches)) + TailOf(m)
  {
  }

  lemma BehindHeaders(h: string, tail: string)
    requires tail != "" && tail[0] == '\n' && Solid(h)
    ensures BodyAt(h + tail, |h| + 1) && (h + tail)[..|h| + 1] == h + "\n"
  {
    hide Solid;
    assert (h + tail)[..|h|] == h;
  }
}
