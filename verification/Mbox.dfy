// Mails written to an mbox and read back from it.

module MboxFormat {
  import opened MailText
  import opened LineStates

  // ---------------------------------------------------------------- lines

  function SkipMarks(line: string): string {
    if line != "" && line[0] == '>' then SkipMarks(line[1..]) else line
  }

  predicate IsFrom(line: string) {
    "From " <= line
  }

  /** A From line behind any number of marks. */
  predicate FromLike(line: string) {
    IsFrom(SkipMarks(line))
  }

  function Quote(line: string): string {
    if FromLike(line) then ">" + line else line
  }

  function Unquote(line: string): string {
    if line != "" && line[0] == '>' && FromLike(line) then line[1..] else line
  }

  lemma QuoteBack(line: string)
    ensures Unquote(Quote(line)) == line && !IsFrom(Quote(line)) && FromLike(Quote(line)) == FromLike(line)
  {
    assert FromLike(line) ==> Quote(line)[1..] == line;
    assert IsFrom(line) ==> line[0] == 'F';
  }

  /** Without the newline it may end in. */
  function Chomp(line: string): string {
    if EndsInNewline(line) then line[..|line| - 1] else line
  }

  // ---------------------------------------------------------------- writing

  function QuoteAll(lines: seq<string>): string {
    if lines == [] then "" else Quote(lines[0]) + QuoteAll(lines[1..])
  }

  /** A mail as it is written: its envelope line, its lines, all but the first quoted, and an empty line. */
  function Written(from: string, m: string): string {
    from + "\n" + Lines(m)[0] + QuoteAll(Lines(m)[1..]) + (if EndsInNewline(m) then "\n" else "\n\n")
  }

  datatype Letter = Letter(from: string, mail: string)
  {
    /** The envelope line is a From line, and the mail is not empty. */
    predicate Proper() {
      IsFrom(from) && '\n' !in from && mail != ""
    }
  }

  function File(letters: seq<Letter>): string {
    if letters == [] then "" else Written(letters[0].from, letters[0].mail) + File(letters[1..])
  }

  // ---------------------------------------------------------------- reading

  /** What is stored of the lines up to the next From line, these lines as they are, and the lines after the From line. */
  datatype Taken = Taken(mail: string, raw: string, rest: seq<string>)

  /** A line is stored without the mark it may have got, and with a newline; once the mail is too big nothing is. */
  function Store(mail: string, line: string, max: nat): string {
    if |mail| > max then mail else mail + (Unquote(Chomp(line)) + "\n")
  }

  /** The lines up to a From line; at the start of the file there is none. */
  function Collect(lines: seq<string>, start: bool, mail: string, raw: string, max: nat): Taken
    decreases |lines|
  {
    if lines == [] then Taken(mail, raw, [])
    else if !start && IsFrom(lines[0]) then Taken(mail, raw, lines[1..])
    else Collect(lines[1..], false, Store(mail, lines[0], max), raw + lines[0], max)
  }

  predicate EndsBlank(raw: string) {
    |raw| >= 2 && raw[|raw| - 1] == '\n' && raw[|raw| - 2] == '\n'
  }

  function Trimmed(t: Taken): string {
    if EndsBlank(t.raw) && |t.mail| >= 2 then t.mail[..|t.mail| - 2] else t.mail
  }

  /** All mails of a file. */
  function Split(lines: seq<string>, start: bool, max: nat): seq<string>
    decreases |lines|
  {
    if lines == [] then []
    else
      var t := Collect(lines, start, "", "", max);
      CollectTakes(lines, start, "", "", max);
      [Trimmed(t)] + Split(t.rest, false, max)
  }

  lemma {:induction false} CollectTakes(lines: seq<string>, start: bool, mail: string, raw: string, max: nat)
    ensures var t := Collect(lines, start, mail, raw, max); |t.rest| <= |lines| && (lines != [] ==> |t.rest| < |lines|)
    decreases |lines|
  {
    if lines != [] && (start || !IsFrom(lines[0])) {
      CollectTakes(lines[1..], false, Store(mail, lines[0], max), raw + lines[0], max);
    }
  }

  // ---------------------------------------------------------------- the lines of what is written

  /** With a newline at its end. */
  function Closed(m: string): string {
    if EndsInNewline(m) then m else m + "\n"
  }

  function Quoted(lines: seq<string>): seq<string> {
    if lines == [] then [] else [Quote(lines[0])] + Quoted(lines[1..])
  }

  /** The lines a letter is written as, after its envelope line. */
  function BodyLines(m: string): seq<string> {
    [Lines(Closed(m))[0]] + Quoted(Lines(Closed(m))[1..]) + ["\n"]
  }

  function LetterLines(l: Letter): seq<string> {
    [l.from + "\n"] + BodyLines(l.mail)
  }

  function FileLines(letters: seq<Letter>): seq<string> {
    if letters == [] then [] else LetterLines(letters[0]) + FileLines(letters[1..])
  }

  /** One line, with its newline. */
  predicate FullLine(line: string) {
    OneLine(line) && EndsInNewline(line)
  }

  ghost predicate FullLines(lines: seq<string>) {
    forall l :: l in lines ==> FullLine(l)
  }

  lemma {:induction false} FullIsSplit(lines: seq<string>)
    requires FullLines(lines) && lines != []
    ensures WellSplit(lines)
    decreases |lines|
  {
    assert lines[0] in lines;
    if |lines| > 1 {
      assert lines[1] in lines;
      FullIsSplit(lines[1..]);
    }
  }

  /** Closing a mail closes its last line. */
  lemma {:induction false} ClosedLines(m: string)
    requires m != ""
    ensures FullLines(Lines(Closed(m)))
    ensures LineLen(m) == |m| ==> Lines(Closed(m)) == [Closed(m)]
    ensures LineLen(m) < |m| ==> Lines(Closed(m)) == [m[..LineLen(m)]] + Lines(Closed(m[LineLen(m)..]))
    decreases |m|
  {
    hide FirstNl, LineLen, Lines;
    var k := LineLen(m);
    LineIs(m);
    if k == |m| {
      assert m[..k] == m;
      LinesCons(Closed(m), "");
      assert Closed(m) + "" == Closed(m) && [Closed(m)] + [] == [Closed(m)];
    } else {
      var line, rest := m[..k], m[k..];
      ClosedLines(rest);
      assert Closed(m) == line + Closed(rest);
      LinesCons(line, Closed(rest));
    }
  }

  lemma LinesCons(line: string, rest: string)
    requires FullLine(line)
    ensures Lines(line + rest) == [line] + (if rest == "" then [] else Lines(rest))
  {
    hide FirstNl, LineLen;
    FirstLine(line, rest);
    assert (line + rest)[|line|..] == rest && (line + rest)[..|line|] == line;
    if rest == "" {
      assert line + rest == line;
      assert [line] + [] == [line];
    }
  }

  lemma QuoteNewline(line: string)
    requires OneLine(line) && !EndsInNewline(line)
    ensures Quote(line + "\n") == Quote(line) + "\n"
    ensures FromLike(line + "\n") == FromLike(line)
  {
    SkipNewline(line);
    var s := SkipMarks(line);
    assert (s + "\n")[|s|] == '\n' && "From "[4] == ' ';
    assert IsFrom(s + "\n") == IsFrom(s);
    assert ">" + line + "\n" == ">" + (line + "\n");
  }

  lemma {:induction false} SkipNewline(line: string)
    ensures SkipMarks(line + "\n") == SkipMarks(line) + "\n"
  {
    if line != "" && line[0] == '>' {
      assert (line + "\n")[1..] == line[1..] + "\n";
      SkipNewline(line[1..]);
    }
  }

  /** The quoted lines of a closed mail are those of the mail, closed. */
  lemma {:induction false} QuotedText(m: string)
    requires m != ""
    ensures Concat(Quoted(Lines(Closed(m)))) == QuoteAll(Lines(m)) + Ending(m)
    ensures FullLines(Quoted(Lines(Closed(m))))
    decreases |m|
  {
    hide FirstNl, LineLen, Lines, FromLike, FullLine;
    var k := LineLen(m);
    ClosedLines(m);
    LineSplit(m);
    if k == |m| {
      OneQuoted(Closed(m));
      OneQuoted(m);
      FullQuote(Closed(m));
      if !EndsInNewline(m) {
        QuoteNewline(m);
      } else {
        assert Quote(m) + "" == Quote(m);
      }
    } else {
      var line, rest := m[..k], m[k..];
      QuotedText(rest);
      QuotedMore(line, Lines(Closed(rest)));
      QuotedMore(line, Lines(rest));
      assert line in [line] + Lines(Closed(rest));
      FullQuote(line);
      assert Quote(line) + (QuoteAll(Lines(rest)) + Ending(rest)) == Quote(line) + QuoteAll(Lines(rest)) + Ending(rest);
    }
  }

  /** What a mail needs to end in a newline. */
  function Ending(m: string): string {
    if EndsInNewline(m) then "" else "\n"
  }

  lemma LineSplit(m: string)
    ensures var k := LineLen(m); OneLine(m[..k])
    ensures LineLen(m) == |m| ==> Lines(m) == [m] && OneLine(m)
    ensures LineLen(m) < |m| ==> Lines(m) == [m[..LineLen(m)]] + Lines(m[LineLen(m)..]) && FullLine(m[..LineLen(m)])
  {
    LineIs(m);
    assert m[..|m|] == m;
  }

  lemma OneQuoted(line: string)
    ensures Quoted([line]) == [Quote(line)] && Concat([Quote(line)]) == Quote(line) && QuoteAll([line]) == Quote(line)
  {
    assert [line][1..] == [] && [Quote(line)][1..] == [];
    assert Quote(line) + "" == Quote(line);
  }

  lemma QuotedMore(line: string, more: seq<string>)
    ensures Quoted([line] + more) == [Quote(line)] + Quoted(more)
    ensures Concat(Quoted([line] + more)) == Quote(line) + Concat(Quoted(more))
    ensures QuoteAll([line] + more) == Quote(line) + QuoteAll(more)
  {
    assert ([line] + more)[1..] == more;
    assert ([Quote(line)] + Quoted(more))[1..] == Quoted(more);
  }

  lemma FullQuote(line: string)
    requires FullLine(line)
    ensures FullLine(Quote(line))
  {
  }

  lemma BodyText(m: string)
    requires m != ""
    ensures Concat(BodyLines(m)) == Lines(m)[0] + QuoteAll(Lines(m)[1..]) + (if EndsInNewline(m) then "\n" else "\n\n")
    ensures FullLines(BodyLines(m))
    ensures |Lines(Closed(m))| > 0 && FromLike(Lines(Closed(m))[0]) == FromLike(Lines(m)[0])
    ensures IsFrom(Lines(Closed(m))[0]) == IsFrom(Lines(m)[0])
  {
    hide FirstNl, LineLen, Lines, FromLike, FullLine;
    var k := LineLen(m);
    ClosedLines(m);
    LineSplit(m);
    var first, more := Lines(Closed(m))[0], Quoted(Lines(Closed(m))[1..]);
    ConcatAppend([first] + more, ["\n"]);
    ConcatAppend([first], more);
    OneText(first);
    OneText("\n");
    assert FullLine("\n") by { Newline(); }
    if k == |m| {
      assert Lines(m)[1..] == [] && Lines(Closed(m))[1..] == [];
      if !EndsInNewline(m) {
        QuoteNewline(m);
        FromNewline(m);
        assert m + "\n" + "" + "\n" == m + "" + "\n\n";
      }
    } else {
      QuotedText(m[k..]);
      assert Lines(m)[1..] == Lines(m[k..]) && Lines(Closed(m))[1..] == Lines(Closed(m[k..]));
      TwoEndings(m, m[k..], first, QuoteAll(Lines(m[k..])));
    }
  }

  lemma TwoEndings(m: string, rest: string, first: string, quoted: string)
    requires EndsInNewline(m) == EndsInNewline(rest)
    ensures first + (quoted + Ending(rest)) + "\n" == first + quoted + (if EndsInNewline(m) then "\n" else "\n\n")
  {
    assert first + (quoted + "\n") + "\n" == first + quoted + "\n\n";
    assert quoted + "" == quoted;
  }

  lemma OneText(text: string)
    ensures Concat([text]) == text
  {
    assert [text][1..] == [] && text + "" == text;
  }

  lemma Newline()
    ensures FullLine("\n")
  {
  }

  lemma FromNewline(line: string)
    ensures IsFrom(line + "\n") == IsFrom(line)
  {
    assert (line + "\n")[|line|] == '\n' && "From "[4] == ' ';
  }

  lemma LetterText(l: Letter)
    requires l.Proper()
    ensures Concat(LetterLines(l)) == Written(l.from, l.mail) && FullLines(LetterLines(l))
  {
    hide Lines, FromLike, BodyLines;
    BodyText(l.mail);
    var first, body := l.from + "\n", BodyLines(l.mail);
    assert ([first] + body)[1..] == body;
    var a, q, e := Lines(l.mail)[0], QuoteAll(Lines(l.mail)[1..]), if EndsInNewline(l.mail) then "\n" else "\n\n";
    assert first + (a + q + e) == first + a + q + e;
  }

  ghost predicate AllProper(letters: seq<Letter>) {
    forall l :: l in letters ==> l.Proper()
  }

  lemma {:induction false} FileText(letters: seq<Letter>)
    requires AllProper(letters)
    ensures Concat(FileLines(letters)) == File(letters) && FullLines(FileLines(letters))
    ensures letters != [] ==> Lines(File(letters)) == FileLines(letters)
    decreases |letters|
  {
    hide LetterLines, Written, Letter.Proper;
    if letters != [] {
      assert letters[0] in letters;
      LetterText(letters[0]);
      FileText(letters[1..]);
      ConcatAppend(LetterLines(letters[0]), FileLines(letters[1..]));
      assert LetterLines(letters[0]) != [] by { FirstLetter(letters[0]); }
      FullIsSplit(FileLines(letters));
      OnlyLines(FileLines(letters));
    }
  }

  lemma FirstLetter(l: Letter)
    ensures LetterLines(l) != [] && LetterLines(l)[0] == l.from + "\n" && LetterLines(l)[1..] == BodyLines(l.mail)
  {
  }

  // ---------------------------------------------------------------- there and back

  /** A From line ends a mail, and so does the end of the file. */
  predicate Ends(next: seq<string>) {
    next == [] || IsFrom(next[0])
  }

  function After(next: seq<string>): seq<string> {
    if next == [] then [] else next[1..]
  }

  lemma CollectOne(line: string, rest: seq<string>, start: bool, mail: string, raw: string, max: nat)
    requires start || !IsFrom(line)
    ensures Collect([line] + rest, start, mail, raw, max) == Collect(rest, false, Store(mail, line, max), raw + line, max)
  {
    assert ([line] + rest)[1..] == rest;
  }

  lemma KeptOne(mail: string, line: string, rest: seq<string>, max: nat)
    ensures Kept(mail, [line] + rest, max) == Kept(if |mail| > max then mail else mail + line, rest, max)
  {
    assert ([line] + rest)[1..] == rest;
  }

  /** The empty line after a mail, and then its end. */
  lemma LastTaken(next: seq<string>, mail: string, raw: string, max: nat)
    requires Ends(next)
    ensures Collect(["\n"] + next, false, mail, raw, max) == Taken(Kept(mail, ["\n"], max), raw + "\n", After(next))
  {
    CollectOne("\n", next, false, mail, raw, max);
    KeptOne(mail, "\n", [], max);
    assert ["\n"] + [] == ["\n"];
    assert Unquote(Chomp("\n")) + "\n" == "\n";
  }

  /** Quoted lines are stored as they were. */
  lemma {:induction false} QuotedTaken(lines: seq<string>, next: seq<string>, mail: string, raw: string, max: nat)
    requires FullLines(lines) && Ends(next)
    ensures Collect(Quoted(lines) + ["\n"] + next, false, mail, raw, max)
            == Taken(Kept(mail, lines + ["\n"], max), raw + Concat(Quoted(lines)) + "\n", After(next))
    decreases |lines|
  {
    hide Collect, Kept, Unquote, Quote, Chomp, FullLine, IsFrom, Ends;
    if lines == [] {
      LastTaken(next, mail, raw, max);
      assert Quoted(lines) + ["\n"] + next == ["\n"] + next;
      assert lines + ["\n"] == ["\n"];
      assert raw + "" == raw;
    } else {
      var line := lines[0];
      var rest := Quoted(lines[1..]) + ["\n"] + next;
      assert line in lines;
      assert Quoted(lines) + ["\n"] + next == [Quote(line)] + rest;
      StoredBack(line);
      CollectOne(Quote(line), rest, false, mail, raw, max);
      KeptOne(mail, line, lines[1..] + ["\n"], max);
      QuotedTaken(lines[1..], next, Store(mail, Quote(line), max), raw + Quote(line), max);
      assert lines + ["\n"] == [line] + (lines[1..] + ["\n"]);
      assert Quoted(lines)[1..] == Quoted(lines[1..]);
      assert raw + Quote(line) + Concat(Quoted(lines[1..])) == raw + (Quote(line) + Concat(Quoted(lines[1..])));
    }
  }

  lemma StoredBack(line: string)
    requires FullLine(line)
    ensures Unquote(Chomp(Quote(line))) + "\n" == line && !IsFrom(Quote(line))
  {
    var l := Chomp(line);
    QuoteBack(l);
    assert l + "\n" == line;
    QuoteNewline(l);
    FromNewline(Quote(l));
    assert Chomp(Quote(l) + "\n") == Quote(l);
  }

  /** What is stored of a mail, if it is not too big. */
  function Texts(m: string): seq<string> {
    [Unquote(Lines(Closed(m))[0])] + (Lines(Closed(m))[1..] + ["\n"])
  }

  lemma BodyTaken(m: string, next: seq<string>, mail: string, raw: string, max: nat)
    requires m != "" && Ends(next) && !IsFrom(Lines(m)[0])
    ensures Collect(BodyLines(m) + next, false, mail, raw, max) == Taken(Kept(mail, Texts(m), max), raw + Concat(BodyLines(m)), After(next))
  {
    hide Collect, Kept, Unquote, Quote, Chomp, FullLine, IsFrom, Ends, Lines, FromLike, Closed;
    BodyText(m);
    ClosedLines(m);
    var lines := Lines(Closed(m));
    var first, rest := lines[0], Quoted(lines[1..]) + ["\n"];
    assert first in lines;
    assert BodyLines(m) + next == [first] + (rest + next);
    CollectOne(first, rest + next, false, mail, raw, max);
    UnquoteClosed(first);
    QuotedTaken(lines[1..], next, Store(mail, first, max), raw + first, max);
    KeptOne(mail, Unquote(first), lines[1..] + ["\n"], max);
    assert BodyLines(m) == [first] + rest && ([first] + rest)[1..] == rest;
    ConcatAppend(Quoted(lines[1..]), ["\n"]);
    OneText("\n");
    assert raw + first + Concat(Quoted(lines[1..])) + "\n" == raw + (first + (Concat(Quoted(lines[1..])) + "\n"));
  }

  lemma UnquoteClosed(line: string)
    requires FullLine(line)
    ensures Unquote(Chomp(line)) + "\n" == Unquote(line)
    ensures FromLike(line) && !IsFrom(line) ==> |Unquote(line)| == |line| - 1
    ensures !FromLike(line) ==> Unquote(line) == line
  {
    var l := Chomp(line);
    assert l + "\n" == line;
    QuoteNewline(l);
  }

  lemma TextsText(m: string)
    requires m != "" && !IsFrom(Lines(m)[0])
    ensures Texts(m)[|Texts(m)| - 1] == "\n"
    ensures !FromLike(Lines(m)[0]) ==> Concat(Texts(m)) == Closed(m) + "\n"
    ensures FromLike(Lines(m)[0]) ==> |Concat(Texts(m))| == |Closed(m)| && |Closed(m)| > 2
  {
    hide Unquote, FullLine, IsFrom, Lines, FromLike, Closed, Quote;
    BodyText(m);
    ClosedLines(m);
    var lines := Lines(Closed(m));
    LinesMakeMail(Closed(m));
    assert lines[0] in lines;
    UnquoteClosed(lines[0]);
    ConcatAppend(lines[1..], ["\n"]);
    OneText("\n");
    assert Texts(m)[1..] == lines[1..] + ["\n"];
    assert lines[0] + Concat(lines[1..]) == Closed(m);
    if FromLike(lines[0]) {
      LongFrom(lines[0]);
    } else {
      assert lines[0] + (Concat(lines[1..]) + "\n") == Closed(m) + "\n";
    }
  }

  lemma {:induction false} LongFrom(line: string)
    requires FromLike(line)
    ensures |line| >= 5
  {
    if line != "" && line[0] == '>' {
      LongFrom(line[1..]);
    }
  }

  lemma {:induction false} FullEnds(lines: seq<string>)
    requires FullLines(lines) && lines != []
    ensures EndsInNewline(Concat(lines))
    decreases |lines|
  {
    assert lines[0] in lines;
    if |lines| > 1 {
      FullEnds(lines[1..]);
    }
  }

  /** What is written for a mail ends in an empty line. */
  lemma BodyBlank(m: string, raw: string)
    requires m != ""
    ensures EndsBlank(raw + Concat(BodyLines(m)))
  {
    hide FullLine, Lines, Closed, Quoted;
    BodyText(m);
    var body := BodyLines(m);
    var but := [Lines(Closed(m))[0]] + Quoted(Lines(Closed(m))[1..]);
    assert body == but + ["\n"];
    assert forall l :: l in but ==> l in body;
    FullEnds(but);
    ConcatAppend(but, ["\n"]);
    OneText("\n");
  }

  /** What is read in front of a mail: the first of a file gets its envelope line. */
  function Head(l: Letter, start: bool): string {
    if start then l.from + "\n" else ""
  }

  /** A mail that comes back: its first line is not like a From line, and it is not too big, with its last newline. */
  predicate Good(l: Letter, start: bool, max: nat) {
    !FromLike(Lines(l.mail)[0]) && |Head(l, start)| + |Closed(l.mail)| <= max
  }

  function Expected(letters: seq<Letter>, start: bool): seq<string> {
    if letters == [] then [] else [Head(letters[0], start) + Chomp(letters[0].mail)] + Expected(letters[1..], false)
  }

  predicate AllGood(letters: seq<Letter>, start: bool, max: nat) {
    letters == [] || (Good(letters[0], start, max) && AllGood(letters[1..], false, max))
  }

  /** The lines of a letter, with its envelope line if it is the first. */
  function From(l: Letter, start: bool): seq<string> {
    (if start then [l.from + "\n"] else []) + BodyLines(l.mail)
  }

  lemma HeadTaken(l: Letter, next: seq<string>, start: bool, max: nat)
    requires l.Proper()
    ensures Collect(From(l, start) + next, start, "", "", max) == Collect(BodyLines(l.mail) + next, false, Head(l, start), Head(l, start), max)
  {
    hide BodyLines;
    if start {
      assert From(l, start) + next == [l.from + "\n"] + (BodyLines(l.mail) + next);
      CollectOne(l.from + "\n", BodyLines(l.mail) + next, true, "", "", max);
      assert l.from[0] == 'F';
      assert Chomp(l.from + "\n") == l.from;
      assert "" + (l.from + "\n") == l.from + "\n";
    } else {
      assert From(l, start) + next == BodyLines(l.mail) + next;
    }
  }

  /** A good mail comes back as it should, and no other does. */
  lemma HeadBack(l: Letter, next: seq<string>, start: bool, max: nat)
    requires l.Proper() && Ends(next) && max > 0
    ensures var t := Collect(From(l, start) + next, start, "", "", max);
            && (Trimmed(t) == Head(l, start) + Chomp(l.mail) <==> Good(l, start, max))
            && (Good(l, start, max) ==> t.rest == After(next))
  {
    hide Collect, Unquote, FromLike, Lines, BodyLines, From, Texts, Trimmed, IsFrom, EndsBlank;
    var m, head := l.mail, Head(l, start);
    HeadTaken(l, next, start, max);
    if IsFrom(Lines(m)[0]) {
      FirstIsFrom(m, next, head, max);
      assert FromLike(Lines(m)[0]) by { FromIsLike(Lines(m)[0]); }
      assert !EndsBlank(head) by { NotBlank(l, start); }
      var t := Collect(BodyLines(m) + next, false, head, head, max);
      Untrimmed(head, head, t.rest);
    } else {
      BodyTaken(m, next, head, head, max);
      BodyBlank(m, head);
      BlankTrimmed(head, m, Taken(Kept(head, Texts(m), max), head + Concat(BodyLines(m)), After(next)), max);
    }
  }

  lemma NotBlank(l: Letter, start: bool)
    requires l.Proper()
    ensures !EndsBlank(Head(l, start))
  {
  }

  lemma Untrimmed(mail: string, raw: string, rest: seq<string>)
    requires !EndsBlank(raw)
    ensures Trimmed(Taken(mail, raw, rest)) == mail
  {
  }

  /** Without its last two newlines, what is kept of a mail is the mail only if all of it is kept. */
  lemma BlankTrimmed(head: string, m: string, t: Taken, max: nat)
    requires m != "" && !IsFrom(Lines(m)[0]) && max > 0 && EndsBlank(t.raw) && t.mail == Kept(head, Texts(m), max)
    ensures Trimmed(t) == head + Chomp(m) <==> !FromLike(Lines(m)[0]) && |head| + |Closed(m)| <= max
  {
    hide Unquote, FromLike, Lines, Texts, Kept, IsFrom, EndsBlank;
    TextsText(m);
    KeptAll(head, Texts(m), max);
    assert |Chomp(m)| == |Closed(m)| - 1;
    if !FromLike(Lines(m)[0]) && |head| + |Closed(m)| <= max {
      assert t.mail == head + (Closed(m) + "\n");
      assert Closed(m) == Chomp(m) + "\n";
      assert t.mail[..|t.mail| - 2] == head + Chomp(m);
    } else {
      assert |t.mail| < |head| + |Closed(m)| + 1;
    }
  }

  lemma FromIsLike(line: string)
    requires IsFrom(line)
    ensures FromLike(line)
  {
    assert line[0] == 'F';
  }

  lemma FirstIsFrom(m: string, next: seq<string>, head: string, max: nat)
    requires m != "" && IsFrom(Lines(m)[0])
    ensures Collect(BodyLines(m) + next, false, head, head, max) == Taken(head, head, (BodyLines(m) + next)[1..])
    ensures |Chomp(m)| > 0
  {
    hide Lines, Closed, FromLike;
    BodyText(m);
    LinesMakeMail(m);
    assert (BodyLines(m) + next)[0] == Lines(Closed(m))[0];
  }

  /** The mails of a file are those written to it, exactly if all are good. */
  lemma {:induction false} MailsBack(letters: seq<Letter>, start: bool, max: nat)
    requires letters != [] && AllProper(letters) && max > 0
    ensures var lines := if start then FileLines(letters) else After(FileLines(letters));
            Split(lines, start, max) == Expected(letters, start) <==> AllGood(letters, start, max)
    decreases |letters|
  {
    hide Collect, Trimmed, Good, BodyLines, Letter.Proper, IsFrom;
    var l, next := letters[0], FileLines(letters[1..]);
    var lines := if start then FileLines(letters) else After(FileLines(letters));
    assert l in letters;
    assert lines == From(l, start) + next;
    assert From(l, start) != [] by { BodyNotEmpty(l.mail); }
    assert Ends(next) by {
      if letters[1..] != [] {
        assert letters[1] in letters;
        FirstFrom(letters[1]);
      }
    }
    HeadBack(l, next, start, max);
    var t := Collect(lines, start, "", "", max);
    SameFirst(Trimmed(t), Split(t.rest, false, max), Head(l, start) + Chomp(l.mail), Expected(letters[1..], false));
    assert lines != [];
    if letters[1..] != [] {
      MailsBack(letters[1..], false, max);
    }
  }

  lemma SameFirst(a: string, s: seq<string>, b: string, t: seq<string>)
    ensures [a] + s == [b] + t <==> a == b && s == t
  {
    assert [a] + s == [b] + t ==> ([a] + s)[0] == ([b] + t)[0] && ([a] + s)[1..] == ([b] + t)[1..];
    assert ([a] + s)[1..] == s && ([b] + t)[1..] == t;
  }

  lemma BodyNotEmpty(m: string)
    ensures BodyLines(m) != []
  {
  }

  lemma FirstFrom(l: Letter)
    requires l.Proper()
    ensures IsFrom(LetterLines(l)[0])
  {
  }

  /** Writing mails to an mbox and splitting it. */
  lemma FileBack(letters: seq<Letter>, max: nat)
    requires letters != [] && AllProper(letters) && max > 0
    ensures Split(Lines(File(letters)), true, max) == Expected(letters, true) <==> AllGood(letters, true, max)
  {
    FileText(letters);
    MailsBack(letters, true, max);
  }

  /** A mail that starts with a From line, or with one that looks quoted, does not come back. */
  lemma FromLost(from: string, m: string, max: nat)
    requires IsFrom(from) && '\n' !in from && max > 0 && m in {"From x\n", ">From x\n"}
    ensures Split(Lines(File([Letter(from, m)])), true, max) != [from + "\n" + Chomp(m)]
  {
    hide Split, Lines, File;
    var l := Letter(from, m);
    FileBack([l], max);
    assert FromLike(m) by {
      assert (">From x\n")[1..] == "From x\n";
    }
    OneLineMail(m);
    assert !Good(l, true, max);
    assert Expected([l], true) == [from + "\n" + Chomp(m)] by {
      assert [l][1..] == [];
    }
  }

  lemma OneLineMail(m: string)
    requires m in {"From x\n", ">From x\n"}
    ensures Lines(m) == [m]
  {
    assert FirstNl(m) == |m| - 1 by { FirstNlIs(m, |m| - 1); }
  }
}

module MboxFile {
  import opened Sequences
  import opened MailText
  import opened MboxFormat

  /** The text behind the leading marks. */
  method SkipLeading(line: string) returns (k: nat)
    ensures k <= |line| && line[k..] == SkipMarks(line)
  {
    k := 0;
    assert line[0..] == line;
    while k < |line| && line[k] == '>'
      invariant k <= |line| && SkipMarks(line[k..]) == SkipMarks(line)
    {
      assert line[k..][1..] == line[k + 1..];
      k := k + 1;
    }
  }

  /** Whether a line is like a From line. */
  method IsQuoted(line: string) returns (b: bool)
    ensures b == FromLike(line)
  {
    var k := SkipLeading(line);
    b := |line| - k >= 5 && line[k..k + 5] == "From ";
    assert b == ("From " <= line[k..]);
  }

  method IsFromLine(line: string) returns (b: bool)
    requires OneLine(line)
    ensures b == IsFrom(line)
  {
    var text := Chomp(line);
    ChompFrom(line);
    b := |text| >= 5 && text[..5] == "From ";
  }

  /** A line loses the mark it may have got, and is stored with a newline unless the mail has become too big. */
  method StoreLine(m: string, flushing0: bool, line: string, max: nat) returns (mail: string, flushing: bool)
    requires OneLine(line) && flushing0 == (|m| > max)
    ensures mail == Store(m, line, max) && flushing == (|mail| > max)
    ensures |mail| >= if |m| > max then |m| else |m| + 1
  {
    mail, flushing := m, flushing0;
    var text := Chomp(line);
    if text != "" && text[0] == '>' {
      var quoted := IsQuoted(text);
      if quoted {
        text := text[1..];
      }
    }
    if !flushing {
      Assoc3(mail, text, "\n");
      mail := mail + text + "\n";
      if |mail| > max {
        flushing := true;
      }
    }
  }

  /** What a mail keeps of where it came from. */
  datatype Aux = Aux(off: nat, size: nat)

  /** An mbox file, and how far it has been read. */
  class Mbox {
    var file: string
    var off: nat
    var reference: nat
    var total: nat

    constructor ()
      ensures file == "" && off == 0 && reference == 0 && total == 0
    {
      file, off, reference, total := "", 0, 0, 0;
    }

    method WriteLine(line: string, inner: bool)
      modifies this`file
      ensures file == old(file) + (if inner then Quote(line) else line)
    {
      if inner {
        var quotes := IsQuoted(line);
        if quotes {
          file := file + ">";
        }
        Mark(old(file), line);
      }
      file := file + line;
    }

    /** A mail is written at the end of the file, with all From lines but the first line quoted. */
    method Deliver(from: string, m: string)
      requires m != ""
      modifies this`file
      ensures file == old(file) + Written(from, m)
    {
      hide Lines, FromLike, QuoteAll, LineLen, FirstNl, Quote;
      file := file + from;
      file := file + "\n";
      ghost var head, lines := file, Lines(m);
      var ptr := 0;
      var len := LineLength(m, 0);
      assert m[0..] == m;
      ghost var todo := lines;
      while ptr < |m|
        invariant ptr <= |m|
        invariant ptr < |m| ==> len == LineLen(m[ptr..]) && todo == Lines(m[ptr..])
        invariant ptr == |m| ==> todo == []
        invariant if ptr == 0 then file == head && todo == lines
                  else file + QuoteAll(todo) == head + (lines[0] + QuoteAll(lines[1..]))
        decreases |m| - ptr
      {
        LinesFrom(m, ptr);
        var line := m[ptr..ptr + len];
        if ptr != 0 {
          QuoteStep(file, todo);
        } else {
          FirstStep(head, lines);
        }
        WriteLine(line, ptr != 0);
        todo := todo[1..];
        ptr := ptr + len;
        if ptr < |m| {
          len := LineLength(m, ptr);
        }
      }
      ghost var written := file;
      file := file + (if m[|m| - 1] == '\n' then "\n" else "\n\n");
      WrittenIs(old(file), from, m, written, file);
    }

    /** The next mail of the file, and where it is; none at the end of the file. */
    method StateMail(max: nat) returns (mail: string, aux: Aux, found: bool)
      requires off <= |file| && max > 0
      modifies this`off, this`reference, this`total
      ensures off <= |file| && found == (old(off) < |file|)
      ensures found ==> off > old(off) && reference == old(reference) + 1 && total == old(total) + 1
      ensures !found ==> off == old(off) && reference == old(reference) && total == old(total)
      ensures found ==>
                var t := Collect(LinesAt(file, old(off)), old(off) == 0, "", "", max);
                && mail == Trimmed(t) && t.rest == LinesAt(file, off)
                && aux.off == old(off) && aux.size == |t.raw| - (if EndsBlank(t.raw) then 2 else 0)
                && t.raw <= file[aux.off..]
    {
      hide Collect, Lines, EndsBlank, Trimmed;
      mail, aux := "", Aux(off, 0);
      if off == |file| {
        return mail, aux, false;
      }
      reference := reference + 1;
      found := true;
      var end, size;
      mail, end := CollectLines(max);
      total := total + 1;
      mail, size := TrimBlank(mail, aux.off, end - aux.off);
      aux := aux.(size := size);
    }

    /** The lines up to a From line, which is passed, or the end; given are the text stored, and where the lines end. */
    method CollectLines(max: nat) returns (mail: string, end: nat)
      requires off < |file| && max > 0
      modifies this`off
      ensures old(off) <= end <= off <= |file| && off > old(off)
      ensures Collect(LinesAt(file, old(off)), old(off) == 0, "", "", max) == Taken(mail, file[old(off)..end], LinesAt(file, off))
      ensures EndsBlank(file[old(off)..end]) ==> |mail| > 1
    {
      hide Collect, Lines, LineLen, FromLike, Store, Chomp, OneLine, IsFrom, EndsBlank, LinesAt;
      NoLinesAtEnd(file);
      ghost var from := off;
      ghost var all := Collect(LinesAt(file, off), off == 0, "", "", max);
      mail := "";
      var flushing := false;
      ghost var raw := "";
      BlankNeedsTwo("", "");
      while off < |file|
        invariant from <= off <= |file| && flushing == (|mail| > max)
        invariant raw == file[from..off] && all == Collect(LinesAt(file, off), off == 0, mail, raw, max)
        invariant (raw != "" ==> |mail| > 0) && (EndsBlank(raw) ==> |mail| > 1)
        decreases |file| - off
      {
        var start := off;
        var len := LineLength(file, start);
        LineAt(file, start);
        var line := file[start..start + len];
        off := start + len;
        var isFrom := IsFromLine(line);
        if start > 0 && isFrom {
          CollectEnds(LinesAt(file, start), false, mail, raw, max);
          assert LinesAt(file, start)[1..] == LinesAt(file, off);
          return mail, start;
        }
        CollectOne(line, LinesAt(file, off), start == 0, mail, raw, max);
        BlankNeedsTwo(raw, line);
        raw := raw + line;
        assert raw == file[from..off];
        mail, flushing := StoreLine(mail, flushing, line, max);
      }
      end := off;
      CollectEnds([], off == 0, mail, raw, max);
    }

    /** An empty line at the end of a mail is removed, with the newline before it. */
    method TrimBlank(m: string, start: nat, size0: nat) returns (mail: string, size: nat)
      requires start + size0 <= |file| && (EndsBlank(file[start..start + size0]) ==> |m| > 1)
      ensures var raw := file[start..start + size0];
              && (forall rest :: mail == Trimmed(Taken(m, raw, rest)))
              && size == size0 - (if EndsBlank(raw) then 2 else 0)
    {
      ghost var raw := file[start..start + size0];
      mail, size := m, size0;
      assert size >= 2 ==> raw[size - 1] == file[start + size - 1] && raw[size - 2] == file[start + size - 2];
      if size >= 2 && file[start + size - 1] == '\n' && file[start + size - 2] == '\n' {
        size := size - 2;
        mail := mail[..|mail| - 2];
      }
    }

    /** All mails of the file, from its start. */
    method FetchAll(max: nat) returns (mails: seq<string>)
      requires off == 0 && max > 0
      modifies this`off, this`reference, this`total
      ensures mails == Split(LinesAt(file, 0), true, max) && off == |file|
    {
      hide Collect, Lines, Trimmed, Split;
      mails := [];
      var found := true;
      while found
        invariant off <= |file| && (off == 0 ==> mails == []) && (!found ==> off == |file|)
        invariant mails + Split(LinesAt(file, off), off == 0, max) == Split(LinesAt(file, 0), true, max)
        decreases found, |file| - off
      {
        SplitAt(file, off, mails, max);
        var mail, aux;
        mail, aux, found := StateMail(max);
        if found {
          mails := mails + [mail];
        }
      }
      SplitAt(file, off, mails, max);
    }
  }

  lemma QuoteStep(file: string, lines: seq<string>)
    requires lines != []
    ensures file + QuoteAll(lines) == file + Quote(lines[0]) + QuoteAll(lines[1..])
  {
  }

  lemma FirstStep(head: string, lines: seq<string>)
    requires lines != []
    ensures head + lines[0] + QuoteAll(lines[1..]) == head + (lines[0] + QuoteAll(lines[1..]))
  {
  }

  lemma Mark(file: string, line: string)
    ensures file + ">" + line == file + (">" + line)
  {
  }

  lemma WrittenIs(before: string, from: string, m: string, written: string, file: string)
    requires written + QuoteAll([]) == before + from + "\n" + (Lines(m)[0] + QuoteAll(Lines(m)[1..]))
    requires m != "" && file == written + (if m[|m| - 1] == '\n' then "\n" else "\n\n")
    ensures file == before + Written(from, m)
  {
    hide Lines;
    hide QuoteAll;
    assert QuoteAll([]) == "" by { QuoteNone(); }
    assert written + "" == written;
    LetterParts(before, from, "\n", Lines(m)[0], QuoteAll(Lines(m)[1..]), if m[|m| - 1] == '\n' then "\n" else "\n\n");
  }

  lemma QuoteNone()
    ensures QuoteAll([]) == ""
  {
  }

  lemma LetterParts(before: string, from: string, nl: string, a: string, b: string, c: string)
    ensures before + from + nl + (a + b) + c == before + (from + nl + a + b + c)
  {
    assert before + from + nl + (a + b) == before + (from + nl + a + b);
  }

  /** The lines from a position on; none at the end. */
  function LinesAt(file: string, off: nat): seq<string>
    requires off <= |file|
  {
    if off == |file| then [] else Lines(file[off..])
  }

  lemma NoLinesAtEnd(file: string)
    ensures LinesAt(file, |file|) == []
  {
  }

  lemma LineAt(file: string, off: nat)
    requires off < |file|
    ensures var len := LineLen(file[off..]);
            && 0 < len <= |file| - off && OneLine(file[off..off + len])
            && LinesAt(file, off) == [file[off..off + len]] + LinesAt(file, off + len)
  {
    LinesFrom(file, off);
    LineIs(file[off..]);
    var len := LineLen(file[off..]);
    assert file[off..][..len] == file[off..off + len];
  }

  lemma ChompFrom(line: string)
    requires OneLine(line)
    ensures IsFrom(line) == (|Chomp(line)| >= 5 && Chomp(line)[..5] == "From ")
  {
    var l := Chomp(line);
    if EndsInNewline(line) {
      assert l + "\n" == line;
      FromNewline(l);
    }
    assert IsFrom(l) == (|l| >= 5 && l[..5] == "From ");
  }

  lemma SplitAt(file: string, off: nat, mails: seq<string>, max: nat)
    requires off <= |file|
    ensures var t := Collect(LinesAt(file, off), off == 0, "", "", max);
            mails + Split(LinesAt(file, off), off == 0, max)
            == if off == |file| then mails else mails + [Trimmed(t)] + Split(t.rest, false, max)
  {
    hide Collect, Lines, Trimmed;
  }

  lemma CollectEnds(lines: seq<string>, start: bool, mail: string, raw: string, max: nat)
    requires lines == [] || (!start && IsFrom(lines[0]))
    ensures Collect(lines, start, mail, raw, max) == Taken(mail, raw, After(lines))
  {
  }

  lemma BlankNeedsTwo(raw: string, line: string)
    requires OneLine(line)
    ensures EndsBlank(raw + line) ==> raw != ""
    ensures !EndsBlank("")
  {
  }

  /** Mails delivered to a new mbox, and then fetched from it. */
  method DeliverAndFetch(letters: seq<Letter>, max: nat) returns (mails: seq<string>)
    requires letters != [] && AllProper(letters) && max > 0
    ensures mails == Expected(letters, true) <==> AllGood(letters, true, max)
  {
    hide Lines, Written, Split, Expected, AllGood, Letter.Proper;
    var mbox := new Mbox();
    assert letters[..0] == [];
    for i := 0 to |letters|
      invariant mbox.file == File(letters[..i]) && mbox.off == 0
    {
      assert letters[i] in letters;
      assert letters[i].mail != "" by { ProperMail(letters[i]); }
      mbox.Deliver(letters[i].from, letters[i].mail);
      FileAppend(letters[..i], letters[i]);
      assert letters[..i + 1] == letters[..i] + [letters[i]];
    }
    assert letters[..|letters|] == letters;
    FileBack(letters, max);
    FileNotEmpty(letters);
    assert mbox.file[0..] == mbox.file;
    mails := mbox.FetchAll(max);
  }

  lemma ProperMail(l: Letter)
    requires l.Proper()
    ensures l.mail != ""
  {
  }

  lemma FileNotEmpty(letters: seq<Letter>)
    requires letters != [] && AllProper(letters)
    ensures |File(letters)| > 0
  {
    assert letters[0] in letters;
  }

  lemma {:induction false} FileAppend(letters: seq<Letter>, l: Letter)
    ensures File(letters + [l]) == File(letters) + Written(l.from, l.mail)
  {
    hide Written;
    if letters == [] {
      assert letters + [l] == [l] && [l][1..] == [];
    } else {
      assert (letters + [l])[1..] == letters[1..] + [l];
      FileAppend(letters[1..], l);
    }
  }
}
