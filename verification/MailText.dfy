// A mail as text: its lines, and the bytes that end them.

module MailText {
  import opened LineStates

  /** Where the first newline is, or the length if there is none. */
  function FirstNl(m: string): (r: nat)
    ensures r <= |m| && (r < |m| ==> m[r] == '\n') && forall j :: 0 <= j < r ==> m[j] != '\n'
  {
    if m == "" || m[0] == '\n' then 0 else 1 + FirstNl(m[1..])
  }

  lemma FirstNlIs(m: string, r: nat)
    requires r <= |m| && (r < |m| ==> m[r] == '\n') && forall j :: 0 <= j < r ==> m[j] != '\n'
    ensures FirstNl(m) == r
  {
  }

  /** The length of the first line, with its newline if it has one. */
  function LineLen(m: string): (r: nat)
    ensures r <= |m| && (m != "" ==> r > 0)
  {
    var k := FirstNl(m);
    if k < |m| then k + 1 else k
  }

  /** The lines as line_init and line_next give them: an empty mail has one line, of no bytes. */
  function Lines(m: string): (r: seq<string>)
    ensures |r| > 0
    decreases |m|
  {
    var k := LineLen(m);
    if k == |m| then [m] else [m[..k]] + Lines(m[k..])
  }

  /** No newline in it, except perhaps at its end. */
  predicate OneLine(line: string) {
    forall j :: 0 <= j < |line| - 1 ==> line[j] != '\n'
  }

  predicate EndsInNewline(m: string) {
    m != "" && m[|m| - 1] == '\n'
  }

  lemma LineIs(m: string)
    ensures OneLine(m[..LineLen(m)]) && (LineLen(m) < |m| ==> EndsInNewline(m[..LineLen(m)]))
  {
  }

  lemma {:induction false} ConcatAppend(a: seq<string>, b: seq<string>)
    ensures Concat(a + b) == Concat(a) + Concat(b)
  {
    if a == [] {
      assert a + b == b && Concat(a) + Concat(b) == Concat(b);
    } else {
      assert (a + b)[1..] == a[1..] + b;
      ConcatAppend(a[1..], b);
    }
  }

  lemma Within(m: string, from: nat, len: nat, k: nat)
    requires k <= len && from + len <= |m|
    ensures m[from..from + len][..k] == m[from..from + k]
    ensures m[from..][..k] == m[from..from + k] && m[from..][k..] == m[from + k..]
  {
    var a, b := m[from..from + len][..k], m[from..from + k];
    forall j | 0 <= j < |a| ensures a[j] == b[j] {
      assert a[j] == m[from + j];
    }
  }

  /** All lines end in a newline, but perhaps the last, and there are no other newlines. */
  predicate WellSplit(lines: seq<string>) {
    && lines != []
    && OneLine(lines[0])
    && (|lines| > 1 ==> EndsInNewline(lines[0]) && lines[1] != "" && WellSplit(lines[1..]))
  }

  /** The lines of a mail are the one way to cut it after each newline. */
  lemma {:induction false} LinesMakeMail(m: string)
    ensures Concat(Lines(m)) == m && WellSplit(Lines(m)) && (m != "" ==> Lines(m)[0] != "")
    decreases |m|
  {
    var k := LineLen(m);
    if k == |m| {
      assert Concat([m][1..]) == "";
    } else {
      LinesMakeMail(m[k..]);
      assert m == m[..k] + m[k..];
      assert Lines(m)[1..] == Lines(m[k..]);
    }
  }

  lemma FirstLine(line: string, rest: string)
    requires OneLine(line) && (rest != "" ==> EndsInNewline(line))
    ensures LineLen(line + rest) == |line|
  {
    if EndsInNewline(line) {
      FirstNlIs(line + rest, |line| - 1);
    } else {
      FirstNlIs(line + rest, |line|);
    }
  }

  lemma {:induction false} OnlyLines(lines: seq<string>)
    requires WellSplit(lines)
    ensures Lines(Concat(lines)) == lines
    decreases |lines|
  {
    hide FirstNl, LineLen;
    FirstLine(lines[0], Concat(lines[1..]));
    assert (lines[0] + Concat(lines[1..]))[|lines[0]|..] == Concat(lines[1..]);
    assert (lines[0] + Concat(lines[1..]))[..|lines[0]|] == lines[0];
    if |lines| == 1 {
      assert lines[1..] == [] && lines[0] + "" == lines[0];
    } else {
      OnlyLines(lines[1..]);
      assert lines == [lines[0]] + lines[1..];
      assert |Concat(lines[1..])| >= |lines[1]|;
    }
  }

  lemma {:induction false} EachOneLine(lines: seq<string>, l: string)
    requires WellSplit(lines) && l in lines
    ensures OneLine(l) && (NulFree(Concat(lines)) ==> NulFree(l))
    decreases |lines|
  {
    if l != lines[0] {
      EachOneLine(lines[1..], l);
    }
  }

  /** The length of the line that starts at a position. */
  method LineLength(m: string, from: nat) returns (len: nat)
    requires from <= |m|
    ensures len == LineLen(m[from..])
  {
    var k := from;
    while k < |m| && m[k] != '\n'
      invariant from <= k <= |m| && forall j :: from <= j < k ==> m[j] != '\n'
    {
      k := k + 1;
    }
    FirstNlIs(m[from..], k - from);
    len := if k < |m| then k - from + 1 else k - from;
  }

  lemma LinesFrom(m: string, from: nat)
    requires from <= |m|
    ensures var len := LineLen(m[from..]);
            Lines(m[from..]) == [m[from..from + len]] + (if from + len == |m| then [] else Lines(m[from + len..]))
  {
    hide LineLen, Lines;
    var rest := m[from..];
    var len := LineLen(rest);
    Within(m, from, len, len);
    LinesOf(rest);
  }

  lemma LinesOf(m: string)
    ensures var k := LineLen(m); Lines(m) == [m[..k]] + (if k == |m| then [] else Lines(m[k..]))
  {
    hide LineLen;
    assert m[..|m|] == m;
  }

  /** The texts taken in until the mail is too big. */
  function Kept(mail: string, texts: seq<string>, max: nat): string
    decreases |texts|
  {
    if texts == [] || |mail| > max then mail else Kept(mail + texts[0], texts[1..], max)
  }

  /** All texts are kept exactly if the mail is not too big before the last one. */
  lemma {:induction false} KeptAll(mail: string, texts: seq<string>, max: nat)
    requires texts != [] && texts[|texts| - 1] != ""
    ensures var all, last := mail + Concat(texts), texts[|texts| - 1];
            && (Kept(mail, texts, max) == all <==> |all| - |last| <= max)
            && (Kept(mail, texts, max) != all ==> max < |Kept(mail, texts, max)| < |all|)
    decreases |texts|
  {
    LastIsPart(texts);
    if |texts| == 1 {
      assert Concat(texts) == texts[0] && texts[1..] == [];
    } else {
      KeptAll(mail + texts[0], texts[1..], max);
      assert mail + texts[0] + Concat(texts[1..]) == mail + Concat(texts);
      LastIsPart(texts[1..]);
    }
  }

  lemma {:induction false} LastIsPart(texts: seq<string>)
    requires texts != []
    ensures |Concat(texts)| >= |texts[|texts| - 1]|
    decreases |texts|
  {
    if |texts| > 1 {
      LastIsPart(texts[1..]);
    }
  }

  predicate NulFree(m: string) {
    '\0' !in m
  }

  /** The text of a C string: what is before the first NUL. */
  function CString(s: string): (r: string)
    ensures NulFree(r) && r <= s
    ensures NulFree(s) ==> r == s
  {
    if s == "" || s[0] == '\0' then "" else [s[0]] + CString(s[1..])
  }
}
