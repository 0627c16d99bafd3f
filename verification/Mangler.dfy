/** Symbol names: mangled into assembler identifiers, and back. */
module Manglers {
  import opened Letters
  import opened Options

  const HIGH_WATER_MARK := 4096 - 32

  // ----- characters -----

  predicate IsDigit(c: char) {
    '0' <= c <= '9'
  }

  predicate IsAlpha(c: char) {
    'a' <= c <= 'z' || 'A' <= c <= 'Z'
  }

  predicate IsSimple(c: char) {
    c == '_' || IsDigit(c) || IsAlpha(c)
  }

  /** Names are made of bytes. */
  predicate IsBytes(s: string) {
    forall i :: 0 <= i < |s| ==> s[i] as int < 256
  }

  // ----- the characters that have names of their own -----

  function Punctuation(c: char): string {
    match c
    case '!' => "Store"
    case '"' => "Quote"
    case '#' => "Hash"
    case '$' => "Dollar"
    case '%' => "Percent"
    case '&' => "Amp"
    case '\'' => "Tick"
    case _ => ""
  }

  function Operator(c: char): string {
    match c
    case '(' => "Paren"
    case ')' => "Closeparen"
    case '*' => "Star"
    case '+' => "Plus"
    case ',' => "Comma"
    case '-' => "Minus"
    case '.' => "Dot"
    case '/' => "Slash"
    case _ => ""
  }

  function Comparison(c: char): string {
    match c
    case ':' => "Colon"
    case ';' => "Semicolon"
    case '<' => "Less"
    case '=' => "Equals"
    case '>' => "Greater"
    case '?' => "Question"
    case '@' => "Fetch"
    case _ => ""
  }

  function Bracket(c: char): string {
    match c
    case '[' => "Leftbracket"
    case '\\' => "Backslash"
    case ']' => "Rightbracket"
    case '^' => "Caret"
    case '`' => "Backtick"
    case '{' => "Leftbrace"
    case '|' => "Or"
    case '}' => "Rightbrace"
    case '~' => "Tilde"
    case _ => ""
  }

  /** The name of a special character. */
  function Entity(c: char): string {
    if c < '(' then Punctuation(c) else if c < ':' then Operator(c) else if c < '[' then Comparison(c) else Bracket(c)
  }

  predicate IsHex(c: char) {
    IsDigit(c) || 'A' <= c <= 'F'
  }

  function HexDigit(n: int): (c: char)
    requires 0 <= n < 16
    ensures IsHex(c) && HexValue(c) == n
  {
    if n < 10 then (48 + n) as char else (55 + n) as char
  }

  function HexValue(c: char): (n: int)
    requires IsHex(c)
    ensures 0 <= n < 16
  {
    if IsDigit(c) then c as int - 48 else c as int - 55
  }

  // ----- mangling -----

  /** The name of a special character, or its code. */
  function Special(c: char): string
    requires c as int < 256
  {
    if Entity(c) != "" then Entity(c) else ['x', HexDigit(c as int / 16), HexDigit(c as int % 16)]
  }

  /** What one character comes to, at the front of the name or behind it. */
  function Piece(c: char, front: bool): string
    requires c as int < 256
  {
    if IsSimple(c) then (if front && IsDigit(c) then ['z', c] else [c])
    else if front then Special(c) else "_" + Special(c)
  }

  function Transform(c: char, mangled: string): string
    requires c as int < 256
  {
    if |mangled| > HIGH_WATER_MARK then mangled else mangled + Piece(c, mangled == "")
  }

  function Transformed(m: string, mangled: string): string
    requires IsBytes(m)
    decreases |m|
  {
    if m == "" then mangled else Transformed(m[1..], Transform(m[0], mangled))
  }

  predicate StartsWith(s: string, p: string) {
    |p| <= |s| && forall i :: 0 <= i < |p| ==> s[i] == p[i]
  }

  predicate IsReserved(s: string) {
    s == "_start" || s == "main"
  }

  function Mangled(s: string): string
    requires IsBytes(s)
  {
    if IsReserved(s) then s
    else if s == "__" then ""
    else if StartsWith(s, "__") then Transformed(s[2..], "")
    else "v4_" + Transformed(ToLower(s), "")
  }

  method TransformSimple(c: char, mangled: string) returns (done: bool, r: string)
    requires c as int < 256
    ensures done == IsSimple(c) && r == if done then mangled + Piece(c, mangled == "") else mangled
  {
    if IsSimple(c) {
      r := mangled + (if mangled == "" && IsDigit(c) then "z" else "");
      r := r + [c];
      return true, r;
    }
    return false, mangled;
  }

  lemma SpecialPiece(c: char, mangled: string)
    requires c as int < 256 && !IsSimple(c)
    ensures mangled + Piece(c, mangled == "") == mangled + (if mangled == "" then "" else "_") + Special(c)
  {
    hide Special;
  }

  method TransformCharacter(c: char, mangled: string) returns (r: string)
    requires c as int < 256
    ensures r == Transform(c, mangled)
  {
    if |mangled| > HIGH_WATER_MARK { return mangled; }
    var done;
    done, r := TransformSimple(c, mangled);
    if done { return; }
    r := mangled + (if mangled == "" then "" else "_");
    var entity := Entity(c);
    var special := if entity != "" then entity else ['x', HexDigit(c as int / 16), HexDigit(c as int % 16)];
    assert special == Special(c);
    SpecialPiece(c, mangled);
    hide Special, Entity, Piece, IsSimple;
    r := r + special;
  }

  method Mangle(s: string) returns (r: string)
    requires IsBytes(s)
    ensures r == Mangled(s)
  {
    if s == "_start" || s == "main" { return s; }
    if s == "__" { return ""; }
    var isRestricted := |s| > 2 && s[..2] == "__";
    assert isRestricted == StartsWith(s, "__") by {
      TwoUnderscores(s);
    }
    var m := if isRestricted then s[2..] else ToLower(s);
    LowerBytes(s);
    var mangled := "";
    var i := 0;
    assert m[0..] == m;
    while i < |m|
      invariant 0 <= i <= |m|
      invariant IsBytes(m[i..]) && Transformed(m[i..], mangled) == Transformed(m, "")
    {
      assert m[i..][0] == m[i] && m[i..][1..] == m[i + 1..];
      mangled := TransformCharacter(m[i], mangled);
      i := i + 1;
    }
    r := if isRestricted then mangled else "v4_" + mangled;
  }

  lemma TwoUnderscores(s: string)
    requires s != "__"
    ensures StartsWith(s, "__") <==> |s| > 2 && s[..2] == "__"
  {
    if |s| > 2 { assert s[..2] == [s[0], s[1]]; }
    assert |s| == 2 ==> s == [s[0], s[1]];
  }

  lemma LowerBytes(s: string)
    requires IsBytes(s)
    ensures IsBytes(ToLower(s))
  {
  }

  // ----- demangling -----

  /** The first character in order, from code i on, whose name s starts with. */
  function Find(i: nat, s: string): Option<char>
    decreases 128 - i
  {
    if i >= 128 then None
    else if Entity(i as char) != "" && StartsWith(s, Entity(i as char)) then Some(i as char)
    else Find(i + 1, s)
  }

  lemma {:induction false} FindSound(i: nat, s: string)
    requires Find(i, s).Some?
    ensures var c := Find(i, s).value; Entity(c) != "" && StartsWith(s, Entity(c))
    decreases 128 - i
  {
    hide Entity;
    if !(Entity(i as char) != "" && StartsWith(s, Entity(i as char))) {
      FindSound(i + 1, s);
    }
  }

  lemma {:induction false} FindComplete(i: nat, s: string, c: char)
    requires i <= c as int < 128 && Entity(c) != "" && StartsWith(s, Entity(c))
    ensures Find(i, s).Some?
    decreases 128 - i
  {
    hide Entity;
    if !(Entity(i as char) != "" && StartsWith(s, Entity(i as char))) {
      FindComplete(i + 1, s, c);
    }
  }

  function CharAt(s: string, i: nat): char {
    if i < |s| then s[i] else ' '
  }

  /** The only special character whose name s can start with. */
  function Which(s: string): char {
    match CharAt(s, 0)
    case 'A' => '&'
    case 'B' => if CharAt(s, 4) == 't' then '`' else '\\'
    case 'C' =>
      if CharAt(s, 1) == 'a' then '^' else if CharAt(s, 1) == 'l' then ')' else if CharAt(s, 2) == 'l' then ':' else ','
    case 'D' => if CharAt(s, 2) == 'l' then '$' else '.'
    case 'E' => '='
    case 'F' => '@'
    case 'G' => '>'
    case 'H' => '#'
    case 'L' => if CharAt(s, 2) == 's' then '<' else if CharAt(s, 8) == 'k' then '[' else '{'
    case 'M' => '-'
    case 'O' => '|'
    case 'P' => if CharAt(s, 1) == 'e' then '%' else if CharAt(s, 1) == 'a' then '(' else '+'
    case 'Q' => if CharAt(s, 2) == 'o' then '"' else '?'
    case 'R' => if CharAt(s, 9) == 'k' then ']' else '}'
    case 'S' =>
      if CharAt(s, 1) == 'e' then ';' else if CharAt(s, 1) == 'l' then '/' else if CharAt(s, 2) == 'o' then '!' else '*'
    case _ => if CharAt(s, 2) == 'l' then '~' else '\''
  }

  /** What is true of the name of a special character. */
  predicate Named(c: char, name: string) {
    name != "" ==>
      && 2 <= |name| <= 12 && 'A' <= name[0] <= 'Z' && !IsSimple(c) && c as int < 128
      && forall i :: 0 <= i < |name| ==> IsAlpha(name[i])
  }

  /** A string that starts with the name of c starts with no other one. */
  predicate Told(c: char, name: string, s: string) {
    name != "" && StartsWith(s, name) ==> Which(s) == c
  }

  lemma PunctuationNamed(c: char, s: string)
    ensures Named(c, Punctuation(c)) && Told(c, Punctuation(c), s)
  {
  }

  lemma OperatorNamed(c: char, s: string)
    ensures Named(c, Operator(c)) && Told(c, Operator(c), s)
  {
  }

  lemma ComparisonNamed(c: char, s: string)
    ensures Named(c, Comparison(c)) && Told(c, Comparison(c), s)
  {
  }

  lemma BracketNamed(c: char, s: string)
    ensures Named(c, Bracket(c)) && Told(c, Bracket(c), s)
  {
  }

  lemma EntityNamed(c: char, s: string)
    ensures Named(c, Entity(c)) && Told(c, Entity(c), s)
  {
    PunctuationNamed(c, s);
    OperatorNamed(c, s);
    ComparisonNamed(c, s);
    BracketNamed(c, s);
    hide Named, Told, Punctuation, Operator, Comparison, Bracket;
  }

  /** What is left to do, and what has been found so far. */
  datatype Progress = Progress(rest: string, found: string)

  predicate IsHexCode(s: string) {
    |s| >= 4 && s[0] == '_' && s[1] == 'x' && IsHex(s[2]) && IsHex(s[3])
  }

  function HexCode(s: string): char
    requires IsHexCode(s)
  {
    (16 * HexValue(s[2]) + HexValue(s[3])) as char
  }

  /** The progress after reading a character that stands for n others. */
  function Read(ss: string, n: nat, c: char, found: string): Progress
    requires n <= |ss|
  {
    Progress(ss[n..], found + [c])
  }

  /** One character: a code, a name, or itself; at the front the missing underscore
      is put back first, and a z before a digit is skipped. */
  function Untransform(p: Progress): (q: Progress)
    requires p.rest != ""
    ensures |q.rest| < |p.rest| && |q.found| == |p.found| + 1
  {
    var ss := if p.found == "" then "_" + p.rest else p.rest;
    if IsHexCode(ss) then Read(ss, 4, HexCode(ss), p.found)
    else
      var e := if ss[0] == '_' then Find(0, ss[1..]) else None;
      if e.Some? then
        FindSound(0, ss[1..]);
        EntityNamed(e.value, "");
        Read(ss, |Entity(e.value)| + 1, e.value, p.found)
      else if p.found == "" && |p.rest| > 1 && p.rest[0] == 'z' && IsDigit(p.rest[1]) then
        Read(p.rest, 2, p.rest[1], p.found)
      else Read(p.rest, 1, p.rest[0], p.found)
  }

  function Untransformed(p: Progress): string
    decreases |p.rest|
  {
    if p.rest == "" then p.found else Untransformed(Untransform(p))
  }

  function Demangled(s: string): string {
    if IsReserved(s) then s
    else if s == "v4_" then ""
    else if |s| < 4 || !StartsWith(s, "v4_") then "__" + s
    else Untransformed(Progress(s[3..], ""))
  }

  lemma PrefixIs(s: string)
    ensures "v4_" <= s <==> |s| >= 3 && s[0] == 'v' && s[1] == '4' && s[2] == '_'
    ensures "v4_" <= s <==> StartsWith(s, "v4_")
    ensures "v4_" <= s && |s| == 3 <==> s == "v4_"
  {
    if |s| >= 3 { assert s[..3] == [s[0], s[1], s[2]]; }
  }

  /** One character at least is read, and none more than there are. */
  lemma {:induction false} UntransformedLength(p: Progress)
    ensures |p.found| <= |Untransformed(p)| <= |p.found| + |p.rest|
    ensures p.rest != "" ==> Untransformed(p) != ""
    decreases |p.rest|
  {
    if p.rest != "" {
      var q := Untransform(p);
      hide Untransform;
      UntransformedLength(q);
    }
  }

  lemma DemangledLength(s: string)
    ensures "v4_" <= s ==> |Demangled(s)| <= |s| - 3 && (|s| > 3 ==> Demangled(s) != "")
  {
    PrefixIs(s);
    if "v4_" <= s {
      UntransformedLength(Progress(s[3..], ""));
      hide Untransformed;
      assert !IsReserved(s) by { assert "_start"[0] == '_' && "main"[0] == 'm'; }
    }
  }

  method Demangle(s: string) returns (r: string)
    ensures r == Demangled(s)
    ensures s == "_start" || s == "main" ==> r == s
    ensures s != "_start" && s != "main" && !("v4_" <= s) ==> r == "__" + s
    ensures "v4_" <= s ==> |r| <= |s| - 3 && (|s| > 3 ==> r != "")
  {
    PrefixIs(s);
    DemangledLength(s);
    if s == "_start" || s == "main" { return s; }
    if s == "v4_" { return ""; }
    if |s| < 4 || !StartsWith(s, "v4_") { return "__" + s; }
    var p := Progress(s[3..], "");
    while p.rest != ""
      invariant Untransformed(p) == Untransformed(Progress(s[3..], ""))
      decreases |p.rest|
    {
      p := UntransformCharacter(p);
    }
    r := p.found;
  }

  /** The helpers try, in turn, a code, a name, and the character itself. */
  method UntransformCharacter(p: Progress) returns (q: Progress)
    requires p.rest != ""
    ensures q == Untransform(p)
  {
    hide Entity;
    var ss := (if p.found == "" then "_" else "") + p.rest;
    assert ss == if p.found == "" then "_" + p.rest else p.rest;
    if IsHexCode(ss) {
      return Progress(ss[4..], p.found + [HexCode(ss)]);
    }
    if ss[0] == '_' {
      var i := 0;
      while i < 128
        invariant 0 <= i <= 128 && Find(i, ss[1..]) == Find(0, ss[1..])
      {
        if Entity(i as char) != "" && StartsWith(ss[1..], Entity(i as char)) {
          return Progress(ss[|Entity(i as char)| + 1..], p.found + [i as char]);
        }
        i := i + 1;
      }
    }
    var rest := p.rest;
    if p.found == "" && |rest| > 1 && rest[0] == 'z' && IsDigit(rest[1]) {
      rest := rest[1..];
    }
    q := Progress(rest[1..], p.found + [rest[0]]);
  }
}
