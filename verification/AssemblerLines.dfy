/** Lines of assembler in CODE words: what is left without comments. */
module AssemblerLines {

  predicate IsComment(c: char) {
    c == '\\' || c == '#'
  }

  predicate IsBlank(c: char) {
    c == ' ' || c == '\t'
  }

  /** The end of a string whose opening quote is before position i; a backslash
      takes the next character along. */
  function StringEnd(s: string, i: nat): (k: nat)
    ensures k >= i
    decreases |s| - i
  {
    if i >= |s| || s[i] == '"' then i else StringEnd(s, if s[i] == '\\' then i + 2 else i + 1)
  }

  /** Where the comment starts: the first comment character from i on that is not
      in a string, or past the end. */
  function CommentStart(s: string, i: nat): (k: nat)
    ensures k >= i
    decreases |s| - i
  {
    if i >= |s| || IsComment(s[i]) then i
    else CommentStart(s, if s[i] == '"' then StringEnd(s, i + 1) + 1 else i + 1)
  }

  function TrimEnd(s: string): (r: string)
    ensures |r| <= |s| && r == s[..|r|]
    ensures r != "" ==> !IsBlank(r[|r| - 1])
    ensures forall i :: |r| <= i < |s| ==> IsBlank(s[i])
  {
    if s != "" && IsBlank(s[|s| - 1]) then TrimEnd(s[..|s| - 1]) else s
  }

  /** The line up to its comment. */
  function Uncommented(s: string): string {
    var k := CommentStart(s, 0);
    if k < |s| then s[..k] else s
  }

  /** The line without its comment and without blanks at the end. */
  function CodePart(s: string): string {
    TrimEnd(Uncommented(s))
  }

  // ----- what is a comment, from left to right -----

  /** Where a line is: outside of strings, in one, or behind a backslash in one. */
  datatype Mode = Outside | Inside | Escaped

  function Next(m: Mode, c: char): Mode {
    match m
    case Outside => if c == '"' then Inside else Outside
    case Inside => if c == '"' then Outside else if c == '\\' then Escaped else Inside
    case Escaped => Inside
  }

  /** Where a line is after its first i characters. */
  function ModeAt(s: string, i: nat): Mode
    requires i <= |s|
  {
    if i == 0 then Outside else Next(ModeAt(s, i - 1), s[i - 1])
  }

  /** A comment would start here: a backslash or a hash sign outside of strings. */
  predicate CommentAt(s: string, i: nat) {
    i < |s| && ModeAt(s, i).Outside? && (s[i] == '\\' || s[i] == '#')
  }

  /** r starts s; after it come blanks up to position k, the end of the line or a
      comment; it holds no comment and does not end in a blank. */
  predicate StrippedAt(s: string, r: string, k: nat) {
    && |r| <= k <= |s| && r == s[..|r|]
    && (k < |s| ==> CommentAt(s, k)) && (forall j :: |r| <= j < k ==> s[j] == ' ' || s[j] == '\t')
    && (forall j :: 0 <= j < |r| ==> !CommentAt(s, j))
    && (r != "" ==> r[|r| - 1] != ' ' && r[|r| - 1] != '\t')
  }

  ghost predicate Stripped(s: string, r: string) {
    exists k: nat :: StrippedAt(s, r, k)
  }

  /** Up to its end a string is inside, and it ends at a quote. */
  lemma {:induction false} StringModes(s: string, i: nat)
    requires i <= |s| && ModeAt(s, i).Inside?
    ensures forall j :: i <= j < StringEnd(s, i) && j < |s| ==> !ModeAt(s, j).Outside?
    ensures var e := StringEnd(s, i); e < |s| ==> s[e] == '"' && ModeAt(s, e).Inside?
    decreases |s| - i
  {
    if i < |s| && s[i] != '"' {
      assert ModeAt(s, i + 1) == Next(Inside, s[i]);
      if s[i] != '\\' {
        StringModes(s, i + 1);
      } else if i + 2 <= |s| {
        assert ModeAt(s, i + 2) == Next(Escaped, s[i + 1]);
        StringModes(s, i + 2);
      }
    }
  }

  /** The comment starts at the first place where one would. */
  lemma {:induction false} CommentFirst(s: string, i: nat)
    requires i <= |s| && ModeAt(s, i).Outside?
    ensures var c := CommentStart(s, i);
      && (forall j :: i <= j < c && j < |s| ==> !CommentAt(s, j))
      && (c < |s| ==> CommentAt(s, c))
    decreases |s| - i
  {
    if i < |s| && !IsComment(s[i]) {
      assert ModeAt(s, i + 1) == Next(Outside, s[i]);
      if s[i] == '"' {
        StringModes(s, i + 1);
        var e := StringEnd(s, i + 1);
        if e < |s| {
          assert ModeAt(s, e + 1) == Next(Inside, '"');
          CommentFirst(s, e + 1);
        }
      } else {
        CommentFirst(s, i + 1);
      }
    }
  }

  lemma CodePartStripped(s: string)
    ensures Stripped(s, CodePart(s))
  {
    CommentFirst(s, 0);
    hide CommentStart, CommentAt, ModeAt;
    var c := CommentStart(s, 0);
    var k := if c < |s| then c else |s|;
    assert s[..|s|] == s;
    TrimmedAt(s, k, CodePart(s));
    assert StrippedAt(s, CodePart(s), k);
  }

  lemma TrimmedAt(s: string, k: nat, r: string)
    requires k <= |s| && r == TrimEnd(s[..k])
    ensures |r| <= k && r == s[..|r|] && forall j :: |r| <= j < k ==> s[j] == ' ' || s[j] == '\t'
    ensures r != "" ==> r[|r| - 1] != ' ' && r[|r| - 1] != '\t'
  {
    assert s[..k][..|r|] == s[..|r|];
    forall j | |r| <= j < k ensures s[j] == ' ' || s[j] == '\t' {
      assert s[..k][j] == s[j];
    }
  }

  /** That is all there is to say about the code of a line. */
  lemma StrippedOnly(s: string, r: string)
    ensures Stripped(s, r) <==> r == CodePart(s)
  {
    CodePartStripped(s);
    hide CodePart, StrippedAt;
    if Stripped(s, r) {
      var k: nat :| StrippedAt(s, r, k);
      var n: nat :| StrippedAt(s, CodePart(s), n);
      StrippedAlike(s, r, k, CodePart(s), n);
      StrippedAlike(s, CodePart(s), n, r, k);
      StrippedPrefix(s, r, k);
      StrippedPrefix(s, CodePart(s), n);
    }
  }

  lemma StrippedPrefix(s: string, r: string, k: nat)
    requires StrippedAt(s, r, k)
    ensures |r| <= |s| && r == s[..|r|]
  {
  }

  lemma StrippedAlike(s: string, r: string, k: nat, q: string, n: nat)
    requires StrippedAt(s, r, k) && StrippedAt(s, q, n)
    ensures |r| <= |q|
  {
    hide ModeAt;
    assert r != "" ==> r[|r| - 1] == s[|r| - 1];
  }

  /** The loop over the characters of a line. */
  method StripLine(s: string) returns (r: string)
    ensures r == CodePart(s) && Stripped(s, r)
  {
    CodePartStripped(s);
    hide Stripped;
    r := s;
    var i := 0;
    while i < |r|
      invariant r == s && CommentStart(s, i) == CommentStart(s, 0)
      decreases |r| - i
    {
      if IsComment(r[i]) {
        r := r[..i];
        break;
      }
      if r[i] == '"' {
        ghost var first := i + 1;
        i := i + 1;
        while i < |r| && r[i] != '"'
          invariant StringEnd(s, i) == StringEnd(s, first) && i >= first
        {
          if r[i] == '\\' {
            i := i + 1;
          }
          i := i + 1;
        }
      }
      i := i + 1;
    }
    assert r == Uncommented(s);
    ghost var whole := r;
    while r != "" && IsBlank(r[|r| - 1])
      invariant |r| <= |whole| && TrimEnd(r) == TrimEnd(whole)
      decreases |r|
    {
      r := r[..|r| - 1];
    }
  }

  /** Without its end, a line has the same modes. */
  lemma {:induction false} ModePrefix(s: string, k: nat, i: nat)
    requires i <= k <= |s|
    ensures ModeAt(s[..k], i) == ModeAt(s, i)
  {
    if i > 0 {
      ModePrefix(s, k, i - 1);
    }
  }

  /** What is left has no comment and does not end in a blank: leaving comments out
      again changes nothing. */
  lemma CodePartOnce(s: string)
    ensures CodePart(CodePart(s)) == CodePart(s)
  {
    var r := CodePart(s);
    CodePartStripped(s);
    hide CodePart;
    var k: nat :| StrippedAt(s, r, k);
    forall j | 0 <= j < |r| ensures !CommentAt(r, j) {
      ModePrefix(s, |r|, j);
      assert s[..|r|] == r && !CommentAt(s, j);
    }
    hide ModeAt, CommentAt;
    assert r[..|r|] == r;
    assert StrippedAt(r, r, |r|);
    StrippedOnly(r, r);
  }

  /** A line without backslash, hash sign, quote and blanks at its end stays as it is. */
  lemma PlainLine(s: string)
    requires '\\' !in s && '#' !in s && (s != "" ==> s[|s| - 1] != ' ' && s[|s| - 1] != '\t')
    ensures CodePart(s) == s
  {
    hide CodePart, ModeAt;
    assert s[..|s|] == s;
    assert StrippedAt(s, s, |s|);
    StrippedOnly(s, s);
  }

  /** In a string nothing is a comment, and a quote behind a backslash does not end one. */
  lemma QuotedLine(s: string)
    requires s == "a \"\\\"#\" # b"
    ensures CodePart(s) == "a \"\\\"#\""
  {
    var r := s[..7];
    assert s[7] == ' ' && s[8] == '#';
    assert r == "a \"\\\"#\"";
    assert ModeAt(s, 0) == Outside;
    assert ModeAt(s, 1) == Outside;
    assert ModeAt(s, 2) == Outside;
    assert ModeAt(s, 3) == Inside;
    assert ModeAt(s, 4) == Escaped;
    assert ModeAt(s, 5) == Inside;
    assert ModeAt(s, 6) == Inside;
    assert ModeAt(s, 7) == Outside;
    assert ModeAt(s, 8) == Outside;
    hide ModeAt, CodePart;
    assert CommentAt(s, 8);
    assert StrippedAt(s, r, 8);
    StrippedOnly(s, r);
  }
}
