/** Turning the contents of a plain-text question file into questions: the
    text is cut into lines as Rust's `str::lines` does, empty lines are
    skipped, one leading `-` marker is dropped and the rest is trimmed as
    `str::trim` does. */
module TextInput {
  import opened Priorities

  /** Unicode's White_Space property, which `str::trim` strips. */
  predicate IsWhitespace(c: char) {
    var n := c as int;
    (0x09 <= n <= 0x0D) || n == 0x20 || n == 0x85 || n == 0xA0 || n == 0x1680
    || (0x2000 <= n <= 0x200A) || n == 0x2028 || n == 0x2029 || n == 0x202F
    || n == 0x205F || n == 0x3000
  }

  predicate AllWhitespace(s: string) {
    forall k :: 0 <= k < |s| ==> IsWhitespace(s[k])
  }

  /** Neither the first nor the last character is whitespace. */
  predicate NoOuterWhitespace(s: string) {
    s == [] || (!IsWhitespace(s[0]) && !IsWhitespace(s[|s| - 1]))
  }

  function TrimStart(s: string): (r: string)
    ensures |r| <= |s| && r == s[|s| - |r|..]
    ensures AllWhitespace(s[..|s| - |r|])
    ensures r == [] || !IsWhitespace(r[0])
  {
    if s != [] && IsWhitespace(s[0]) then
      var r := TrimStart(s[1..]);
      assert s[..|s| - |r|] == [s[0]] + s[1..][..|s| - 1 - |r|];
      r
    else s
  }

  function TrimEnd(s: string): (r: string)
    ensures |r| <= |s| && r == s[..|r|]
    ensures AllWhitespace(s[|r|..])
    ensures r == [] || !IsWhitespace(r[|r| - 1])
  {
    if s != [] && IsWhitespace(s[|s| - 1]) then TrimEnd(s[..|s| - 1]) else s
  }

  /** `str::trim`: the part of `s` left once the whitespace at both ends is
      cut off. */
  function Trim(s: string): (r: string)
    ensures NoOuterWhitespace(r) && |r| <= |s|
  {
    TrimEnd(TrimStart(s))
  }

  /** `r` is a slice of `s` with only whitespace before and after it. */
  predicate InnerSlice(r: string, s: string) {
    exists i :: 0 <= i <= |s| - |r| && r == s[i..i + |r|]
                && AllWhitespace(s[..i]) && AllWhitespace(s[i + |r|..])
  }

  /** What Trim keeps is a slice of `s` with only whitespace before and
      after it. */
  lemma TrimIsInnerSlice(s: string)
    ensures InnerSlice(Trim(s), s)
  {
    var t := TrimStart(s);
    var r := TrimEnd(t);
    var i := |s| - |t|;
    TrimSlice(s, i, t, r);
    assert r == Trim(s);
  }

  /** The witness for Trim's characterization: the cut made by TrimStart. */
  lemma TrimSlice(s: string, i: nat, t: string, r: string)
    requires i <= |s| && t == s[i..] && AllWhitespace(s[..i])
    requires t == [] || !IsWhitespace(t[0])
    requires |r| <= |t| && r == t[..|r|] && AllWhitespace(t[|r|..])
    requires r == [] || !IsWhitespace(r[|r| - 1])
    ensures NoOuterWhitespace(r)
    ensures InnerSlice(r, s)
  {
    assert s[i..][..|r|] == s[i..i + |r|];
    assert s[i..][|r|..] == s[i + |r|..];
    assert r != [] ==> r[0] == t[0];
    assert AllWhitespace(s[..i]) && AllWhitespace(s[i + |r|..]);
  }

  /** Trimming text that has no whitespace at its ends leaves it as it is. */
  lemma TrimKeepsTrimmed(s: string)
    requires NoOuterWhitespace(s)
    ensures Trim(s) == s
  {
  }

  /** Trimming twice is trimming once. */
  lemma TrimIdempotent(s: string)
    ensures Trim(Trim(s)) == Trim(s)
  {
    TrimKeepsTrimmed(Trim(s));
  }

  /** The text of the question made from a non-empty line: one leading `-`
      marker is removed, then the whitespace at both ends. */
  function CleanLine(line: string): (text: string)
    requires line != []
    ensures NoOuterWhitespace(text)
    ensures |text| <= |line|
    ensures line[0] == '-' ==> |text| < |line|
  {
    Trim(if line[0] == '-' then line[1..] else line)
  }

  /** The text of a question is the line, less one leading marker, with only
      whitespace cut away around it. */
  lemma CleanLineIsInnerSlice(line: string)
    requires line != []
    ensures InnerSlice(CleanLine(line), if line[0] == '-' then line[1..] else line)
  {
    var body := if line[0] == '-' then line[1..] else line;
    TrimIsInnerSlice(body);
    assert CleanLine(line) == Trim(body);
  }

  /** Only literally empty lines are skipped: a line of blanks, or a lone
      marker, becomes a question with empty text. */
  lemma BlankLineGivesEmptyText(line: string)
    requires line != []
    requires AllWhitespace(line) || (line[0] == '-' && AllWhitespace(line[1..]))
    ensures CleanLine(line) == []
  {
    var body := if line[0] == '-' && AllWhitespace(line[1..]) then line[1..] else line;
    assert AllWhitespace(body);
  }

  /** At most one marker is removed: a line starting with `--x` gives `-x`. */
  lemma OneMarkerRemoved(rest: string)
    requires NoOuterWhitespace(rest)
    ensures CleanLine("--" + rest) == "-" + rest
  {
    assert ("--" + rest)[1..] == "-" + rest;
    TrimKeepsTrimmed("-" + rest);
  }

  /** Index of the first line feed of `s`, or |s| when there is none. */
  function LineEnd(s: string): (k: nat)
    ensures k <= |s|
    ensures forall j :: 0 <= j < k ==> s[j] != '\n'
    ensures k < |s| ==> s[k] == '\n'
  {
    if s == [] || s[0] == '\n' then 0 else 1 + LineEnd(s[1..])
  }

  /** Drops one carriage return at the end of a line. */
  function StripCarriageReturn(line: string): string {
    if line != [] && line[|line| - 1] == '\r' then line[..|line| - 1] else line
  }

  /** `str::lines`: lines end at "\n" or "\r\n", the last line may lack its
      terminator, and no line is produced after a final terminator. A lone
      "\r" at the very end of the text stays part of the last line. */
  function Lines(s: string): (ls: seq<string>)
    ensures forall l :: l in ls ==> '\n' !in l
    ensures |ls| <= |s|
    decreases |s|
  {
    if s == [] then []
    else
      var k := LineEnd(s);
      if k == |s| then [s]
      else
        var line := s[..k];
        assert '\n' !in line;
        [StripCarriageReturn(line)] + Lines(s[k + 1..])
  }

  /** A text made of the given lines, each followed by a line feed. */
  function JoinLines(ls: seq<string>): string {
    if ls == [] then [] else ls[0] + "\n" + JoinLines(ls[1..])
  }

  /** A line `str::lines` gives back unchanged: no line feed inside and no
      carriage return at the end. */
  predicate PlainLine(l: string) {
    '\n' !in l && (l == [] || l[|l| - 1] != '\r')
  }

  /** Cutting joined lines into lines gives the lines back. */
  lemma {:induction false} LinesOfJoinLines(ls: seq<string>)
    requires forall l :: l in ls ==> PlainLine(l)
    ensures Lines(JoinLines(ls)) == ls
  {
    if ls != [] {
      assert PlainLine(ls[0]) by { assert ls[0] in ls; }
      assert forall l :: l in ls[1..] ==> l in ls;
      LinesOfLineThen(ls[0], JoinLines(ls[1..]));
      LinesOfJoinLines(ls[1..]);
    }
  }

  lemma LineEndOfLine(l: string, rest: string)
    requires '\n' !in l && rest != [] && rest[0] == '\n'
    ensures LineEnd(l + rest) == |l|
  {
    assert (l + rest)[|l|] == '\n';
  }

  /** The questions made from a file's lines: one per non-empty line, at the
      default weight, in file order. */
  function QuestionsFromLines(lines: seq<string>): (qs: seq<Question>)
    ensures |qs| <= |lines|
  {
    if lines == [] then []
    else
      var last := lines[|lines| - 1];
      QuestionsFromLines(lines[..|lines| - 1])
        + (if last == [] then [] else [NewQuestion(CleanLine(last))])
  }

  /** The lines of a file contribute their questions independently. */
  lemma {:induction false} QuestionsFromLinesConcat(a: seq<string>, b: seq<string>)
    ensures QuestionsFromLines(a + b) == QuestionsFromLines(a) + QuestionsFromLines(b)
    decreases |b|
  {
    if b != [] {
      var b' := b[..|b| - 1];
      assert (a + b)[..|a + b| - 1] == a + b';
      QuestionsFromLinesConcat(a, b');
    } else {
      assert a + b == a;
    }
  }

  /** Reading one more line adds its question, if it is not empty. */
  lemma QuestionsFromLinesStep(lines: seq<string>, k: nat)
    requires k < |lines|
    ensures QuestionsFromLines(lines[..k + 1])
            == QuestionsFromLines(lines[..k])
               + (if lines[k] == [] then [] else [NewQuestion(CleanLine(lines[k]))])
  {
    assert lines[..k + 1][..k] == lines[..k];
  }

  /** Every question read from a file has the default weight. */
  lemma {:induction false} QuestionsAtDefaultWeight(lines: seq<string>, k: nat)
    requires k < |QuestionsFromLines(lines)|
    ensures QuestionsFromLines(lines)[k].priority == DefaultPriority
  {
    var init := lines[..|lines| - 1];
    if k < |QuestionsFromLines(init)| {
      QuestionsAtDefaultWeight(init, k);
    }
  }

  /** The questions read from a file weigh the default weight each. */
  lemma {:induction false} SumOfNewQuestions(lines: seq<string>)
    ensures Sum(QuestionsFromLines(lines)) == DefaultPriority * |QuestionsFromLines(lines)|
  {
    if lines != [] {
      var init := lines[..|lines| - 1];
      var last := lines[|lines| - 1];
      var tail := if last == [] then [] else [NewQuestion(CleanLine(last))];
      SumOfNewQuestions(init);
      SumConcat(QuestionsFromLines(init), tail);
    }
  }

  /** Each non-empty line gives exactly one question, an empty line none. */
  lemma QuestionsFromOneLine(line: string)
    ensures QuestionsFromLines([line])
            == if line == [] then [] else [NewQuestion(CleanLine(line))]
  {
    assert [line][..0] == [];
  }

  /** A line ending in a line feed is cut off as the first line. */
  lemma LinesOfLineThen(l: string, rest: string)
    requires PlainLine(l)
    ensures Lines(l + "\n" + rest) == [l] + Lines(rest)
  {
    var s := l + "\n" + rest;
    LineEndOfLine(l, "\n" + rest);
    assert s == l + ("\n" + rest);
    assert s[..|l|] == l;
    assert s[|l| + 1..] == rest;
  }

  /** A last line without a line ending is the only line. */
  lemma LinesOfLastLine(l: string)
    requires '\n' !in l && l != []
    ensures Lines(l) == [l]
  {
    assert LineEnd(l) == |l|;
  }

  /** A line ending in "\r\n" is cut off without its carriage return. */
  lemma LinesOfCrLfLine(l: string, rest: string)
    requires '\n' !in l
    ensures Lines(l + "\r\n" + rest) == [l] + Lines(rest)
  {
    var s := l + "\r\n" + rest;
    LineEndOfLine(l + "\r", "\n" + rest);
    assert s == (l + "\r") + ("\n" + rest);
    assert s[..|l| + 1] == l + "\r";
    assert (l + "\r")[..|l|] == l;
    assert s[|l| + 2..] == rest;
  }

  /** One marker and one blank before trimmed text leave just the text. */
  lemma MarkedText(t: string)
    requires NoOuterWhitespace(t)
    ensures CleanLine("- " + t) == t
  {
    assert ("- " + t)[1..] == " " + t;
    assert (" " + t)[1..] == t;
    assert TrimStart(" " + t) == t;
    TrimKeepsTrimmed(t);
  }

}
