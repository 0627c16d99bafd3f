/** What mangling promises: identifiers of bounded length, and names that can be
    read back. */
module MangledNames {
  import opened Letters
  import opened Options
  import opened Manglers
  import Elements
  import SmallWords
  import Statements

  // ----- identifiers -----

  predicate IsIdentifier(s: string) {
    s != "" && !IsDigit(s[0]) && forall i :: 0 <= i < |s| ==> IsSimple(s[i])
  }

  predicate AllSimple(s: string) {
    forall i :: 0 <= i < |s| ==> IsSimple(s[i])
  }

  lemma PieceShape(c: char, front: bool)
    requires c as int < 256
    ensures 0 < |Piece(c, front)| <= 13 && AllSimple(Piece(c, front))
  {
    EntityNamed(c, "");
    hide Entity;
  }

  lemma {:induction false} TransformedShape(m: string, mangled: string)
    requires IsBytes(m) && AllSimple(mangled) && |mangled| <= HIGH_WATER_MARK + 13
    ensures AllSimple(Transformed(m, mangled)) && |Transformed(m, mangled)| <= HIGH_WATER_MARK + 13
    decreases |m|
  {
    hide Piece;
    if m != "" {
      PieceShape(m[0], mangled == "");
      TransformedShape(m[1..], Transform(m[0], mangled));
    }
  }

  /** Outside the form with two underscores, names mangle to identifiers of at most
      4080 characters. */
  lemma MangledIsIdentifier(s: string)
    requires IsBytes(s) && !StartsWith(s, "__")
    ensures IsIdentifier(Mangled(s)) && |Mangled(s)| <= 4080
  {
    if !IsReserved(s) {
      LowerBytes(s);
      TransformedShape(ToLower(s), "");
      var t := Transformed(ToLower(s), "");
      assert forall i :: 3 <= i < |"v4_" + t| ==> ("v4_" + t)[i] == t[i - 3];
    }
  }

  // ----- what is encoded -----

  /** All the characters of m, without a limit. */
  function Encoded(m: string, front: bool): string
    requires IsBytes(m)
  {
    if m == "" then "" else Piece(m[0], front) + Encoded(m[1..], false)
  }

  /** How many characters are encoded before the limit. */
  function Cut(m: string, length: nat): (n: nat)
    requires IsBytes(m)
    ensures n <= |m|
  {
    if m == "" || length > HIGH_WATER_MARK then 0 else 1 + Cut(m[1..], length + |Piece(m[0], length == 0)|)
  }

  /** The encoding of the first k characters. */
  function UpTo(m: string, k: nat, front: bool): string
    requires IsBytes(m) && k <= |m|
  {
    if k == 0 then "" else Piece(m[0], front) + UpTo(m[1..], k - 1, false)
  }

  lemma {:induction false} UpToPrefix(m: string, k: nat, front: bool)
    requires IsBytes(m) && k <= |m|
    ensures UpTo(m, k, front) == Encoded(m[..k], front)
    decreases k
  {
    hide Piece;
    if k > 0 {
      UpToPrefix(m[1..], k - 1, false);
      assert m[..k][0] == m[0] && m[..k][1..] == m[1..][..k - 1];
    }
  }

  lemma {:induction false} TransformedUpTo(m: string, mangled: string)
    requires IsBytes(m)
    ensures Transformed(m, mangled) == mangled + UpTo(m, Cut(m, |mangled|), mangled == "")
    decreases |m|
  {
    if m == "" || |mangled| > HIGH_WATER_MARK {
      Unmoved(m, mangled);
    } else {
      PieceShape(m[0], mangled == "");
      hide Piece, IsSimple, IsBytes;
      TransformedUpTo(m[1..], Transform(m[0], mangled));
      Joined(mangled, Piece(m[0], mangled == ""), UpTo(m[1..], Cut(m, |mangled|) - 1, false));
    }
  }

  lemma Joined(a: string, b: string, c: string)
    ensures (a + b) + c == a + (b + c)
  {
  }

  lemma TransformedCut(m: string, mangled: string)
    requires IsBytes(m)
    ensures Transformed(m, mangled) == mangled + Encoded(m[..Cut(m, |mangled|)], mangled == "")
  {
    TransformedUpTo(m, mangled);
    UpToPrefix(m, Cut(m, |mangled|), mangled == "");
  }

  lemma {:induction false} Unmoved(m: string, mangled: string)
    requires IsBytes(m) && (m == "" || |mangled| > HIGH_WATER_MARK)
    ensures Transformed(m, mangled) == mangled
    decreases |m|
  {
    if m != "" {
      Unmoved(m[1..], mangled);
    }
  }

  // ----- what is read back -----

  /** No capitals. */
  predicate IsLowered(m: string) {
    forall i :: 0 <= i < |m| ==> !('A' <= m[i] <= 'Z')
  }

  /** x and two digits where a code may stand. */
  predicate LooksLikeCode(m: string) {
    |m| >= 3 && m[0] == 'x' && IsDigit(m[1]) && IsDigit(m[2])
  }

  predicate LooksLikeLaterCode(m: string) {
    |m| >= 4 && m[0] == '_' && LooksLikeCode(m[1..])
  }

  predicate LooksLikeDigit(m: string) {
    |m| >= 2 && m[0] == 'z' && IsDigit(m[1])
  }

  function CodeOf(m: string): char
    requires LooksLikeCode(m)
  {
    (16 * HexValue(m[1]) + HexValue(m[2])) as char
  }

  /** The name as it is read back: what looks like a code is taken for one. */
  function Collapsed(m: string, front: bool): string
    decreases |m|
  {
    if m == "" then ""
    else if front && LooksLikeCode(m) then [CodeOf(m)] + Collapsed(m[3..], false)
    else if front && LooksLikeDigit(m) then [m[1]] + Collapsed(m[2..], false)
    else if !front && LooksLikeLaterCode(m) then [CodeOf(m[1..])] + Collapsed(m[4..], false)
    else [m[0]] + Collapsed(m[1..], false)
  }

  /** Nothing in the name is taken for something else. */
  predicate Clean(m: string, front: bool) {
    && (front ==> !LooksLikeCode(m) && !LooksLikeDigit(m))
    && (forall i :: (if front then 1 else 0) <= i < |m| ==> !LooksLikeLaterCode(m[i..]))
  }

  lemma {:induction false} CollapsedLength(m: string, front: bool)
    ensures |Collapsed(m, front)| <= |m|
    decreases |m|
  {
    if m == "" {
    } else if front && LooksLikeCode(m) {
      CollapsedLength(m[3..], false);
    } else if front && LooksLikeDigit(m) {
      CollapsedLength(m[2..], false);
    } else if !front && LooksLikeLaterCode(m) {
      CollapsedLength(m[4..], false);
    } else {
      CollapsedLength(m[1..], false);
    }
  }

  lemma {:induction false} CleanIsKept(m: string, front: bool)
    ensures Collapsed(m, front) == m <==> Clean(m, front)
    ensures !Clean(m, front) ==> |Collapsed(m, front)| < |m|
    decreases |m|
  {
    if m == "" {
    } else if front && LooksLikeCode(m) {
      CollapsedLength(m[3..], false);
    } else if front && LooksLikeDigit(m) {
      CollapsedLength(m[2..], false);
    } else if !front && LooksLikeLaterCode(m) {
      CollapsedLength(m[4..], false);
      assert m[0..] == m;
    } else {
      CleanIsKept(m[1..], false);
      CleanStep(m, front);
    }
  }

  lemma CleanStep(m: string, front: bool)
    requires m != "" && (front ==> !LooksLikeCode(m) && !LooksLikeDigit(m)) && (!front ==> !LooksLikeLaterCode(m))
    ensures Clean(m, front) <==> Clean(m[1..], false)
  {
    if Clean(m, front) {
      forall i | 0 <= i < |m[1..]| ensures !LooksLikeLaterCode(m[1..][i..]) {
        assert m[1..][i..] == m[i + 1..];
      }
    }
    if Clean(m[1..], false) {
      forall i | (if front then 1 else 0) <= i < |m| ensures !LooksLikeLaterCode(m[i..]) {
        if i > 0 { assert m[1..][i - 1..] == m[i..]; } else { assert m[0..] == m; }
      }
    }
  }

  // ----- reading back -----

  /** What comes next in an encoding is never a capital, and a digit only for a digit. */
  lemma EncodedHead(m: string)
    requires IsBytes(m) && IsLowered(m) && m != ""
    ensures var e := Encoded(m, false);
      e != "" && !('A' <= e[0] <= 'Z') && (IsHex(e[0]) <==> IsDigit(m[0])) && (IsDigit(m[0]) ==> e[0] == m[0])
    ensures IsSimple(m[0]) ==> Encoded(m, false) == [m[0]] + Encoded(m[1..], false)
    ensures !IsSimple(m[0]) ==> Encoded(m, false)[0] == '_'
  {
    PieceShape(m[0], false);
  }

  lemma NoName(s: string)
    requires s == "" || !('A' <= s[0] <= 'Z')
    ensures Find(0, s) == None
  {
    if Find(0, s).Some? {
      FindSound(0, s);
      NotCapital(Find(0, s).value, s);
    }
  }

  lemma NotCapital(c: char, s: string)
    requires Entity(c) != "" && StartsWith(s, Entity(c))
    ensures s != "" && 'A' <= s[0] <= 'Z'
  {
    EntityNamed(c, s);
    hide Entity;
  }

  /** The encoding of a special character is read back as that character. */
  lemma SpecialRead(c: char, rest: string)
    requires c as int < 256 && !IsSimple(c)
    ensures var ss := "_" + Special(c) + rest;
      if IsHexCode(ss) then HexCode(ss) == c && ss[4..] == rest
      else Find(0, ss[1..]) == Some(c) && ss[|Entity(c)| + 1..] == rest
  {
    var ss := "_" + Special(c) + rest;
    var t := ss[1..];
    assert t == Special(c) + rest;
    EntityNamed(c, t);
    hide Find, Which, Entity;
    if Entity(c) != "" {
      assert t == Entity(c) + rest;
      assert t[0] == Entity(c)[0];
      FindComplete(0, t, c);
      FindSound(0, t);
      EntityNamed(Find(0, t).value, t);
    } else {
      var h := ['x', HexDigit(c as int / 16), HexDigit(c as int % 16)];
      assert ss == "_" + h + rest;
    }
  }

  lemma SpecialStep(c: char, rest: string, found: string)
    requires c as int < 256 && !IsSimple(c)
    ensures Piece(c, found == "") + rest != ""
    ensures Untransform(Progress(Piece(c, found == "") + rest, found)) == Progress(rest, found + [c])
  {
    hide Special, Find, Entity, HexCode;
    var ss := "_" + Special(c) + rest;
    SpecialRead(c, rest);
    PieceShape(c, found == "");
    if found == "" {
      assert "_" + (Special(c) + rest) == ss;
    }
  }

  /** How the encoding of a simple character and what follows is read. */
  lemma SimpleStep(m: string, found: string)
    requires IsBytes(m) && IsLowered(m) && m != "" && IsSimple(m[0])
    requires found == "" ==> !LooksLikeCode(m) && !LooksLikeDigit(m)
    requires found != "" ==> !LooksLikeLaterCode(m)
    ensures Encoded(m, found == "") != ""
    ensures Untransform(Progress(Encoded(m, found == ""), found)) == Progress(Encoded(m[1..], false), found + [m[0]])
  {
    var e, tail := Encoded(m, found == ""), Encoded(m[1..], false);
    if m[1..] != "" { EncodedHead(m[1..]); }
    if found == "" {
      FrontSimple(m);
    } else {
      LaterSimple(m);
    }
    hide Find, Encoded;
  }

  lemma FrontSimple(m: string)
    requires IsBytes(m) && IsLowered(m) && m != "" && IsSimple(m[0]) && !LooksLikeCode(m) && !LooksLikeDigit(m)
    ensures var e, tail := Encoded(m, true), Encoded(m[1..], false);
      && e == (if IsDigit(m[0]) then ['z', m[0]] else [m[0]]) + tail
      && !IsHexCode("_" + e) && Find(0, ("_" + e)[1..]) == None
      && (!IsDigit(m[0]) && m[0] == 'z' ==> tail == "" || !IsDigit(tail[0]))
  {
    var e, tail := Encoded(m, true), Encoded(m[1..], false);
    assert ("_" + e)[1..] == e;
    NoName(e);
    NotACode(m);
  }

  lemma NotACode(m: string)
    requires IsBytes(m) && IsLowered(m) && m != "" && !LooksLikeCode(m)
    ensures var tail := Encoded(m[1..], false);
      && !(m[0] == 'x' && |tail| >= 2 && IsHex(tail[0]) && IsHex(tail[1]))
      && (tail != "" && IsDigit(tail[0]) ==> |m| >= 2 && IsDigit(m[1]))
  {
    if |m| > 1 {
      EncodedHead(m[1..]);
      if |m| > 2 && IsDigit(m[1]) {
        assert m[1..][1..] == m[2..];
        EncodedHead(m[2..]);
      }
    }
    hide Piece;
  }

  lemma LaterSimple(m: string)
    requires IsBytes(m) && IsLowered(m) && m != "" && IsSimple(m[0]) && !LooksLikeLaterCode(m)
    ensures var e, tail := Encoded(m, false), Encoded(m[1..], false);
      && e == [m[0]] + tail && !IsHexCode(e) && Find(0, e[1..]) == None
  {
    var tail := Encoded(m[1..], false);
    EncodedHead(m);
    assert ([m[0]] + tail)[1..] == tail;
    if |m| > 1 {
      EncodedHead(m[1..]);
      NoName(tail);
      if m[0] == '_' { NotACode(m[1..]); }
      assert m[1..][0] == m[1];
    } else {
      NoName(tail);
    }
  }

  /** At the front: x and two digits are read as a code. */
  lemma FrontCodeStep(m: string)
    requires IsBytes(m) && IsLowered(m) && LooksLikeCode(m)
    ensures Encoded(m, true) != ""
    ensures Untransform(Progress(Encoded(m, true), "")) == Progress(Encoded(m[3..], false), [CodeOf(m)])
  {
    var tail := Encoded(m[3..], false);
    FrontCode(m);
    var ss := "_" + Encoded(m, true);
    assert IsHexCode(ss) && HexCode(ss) == CodeOf(m) && ss[4..] == tail;
    hide Find, Encoded, IsHexCode, HexCode, CodeOf;
  }

  lemma FrontCode(m: string)
    requires IsBytes(m) && IsLowered(m) && LooksLikeCode(m)
    ensures Encoded(m, true) == [m[0], m[1], m[2]] + Encoded(m[3..], false)
  {
    FrontSimples(m);
    hide Encoded, LooksLikeCode, IsSimple, IsBytes, IsDigit;
    EncodedSimple(m, true);
    EncodedSimple(m[1..], false);
    EncodedSimple(m[2..], false);
    Three(m[0], m[1], m[2], Encoded(m[3..], false));
  }

  lemma FrontSimples(m: string)
    requires IsBytes(m) && LooksLikeCode(m)
    ensures |m| >= 3 && IsSimple(m[0]) && !IsDigit(m[0]) && IsSimple(m[1]) && IsSimple(m[2])
    ensures m[1..][1..] == m[2..] && m[2..][1..] == m[3..]
    ensures IsBytes(m[1..]) && IsBytes(m[2..]) && IsBytes(m[3..])
  {
  }

  lemma Three(a: char, b: char, c: char, tail: string)
    ensures [a] + ([b] + ([c] + tail)) == [a, b, c] + tail
  {
  }

  lemma EncodedSimple(m: string, front: bool)
    requires IsBytes(m) && m != "" && IsSimple(m[0]) && !(front && IsDigit(m[0]))
    ensures Encoded(m, front) == [m[0]] + Encoded(m[1..], false)
  {
  }

  lemma FrontDigitStep(m: string)
    requires IsBytes(m) && IsLowered(m) && LooksLikeDigit(m)
    ensures Encoded(m, true) != ""
    ensures Untransform(Progress(Encoded(m, true), "")) == Progress(Encoded(m[2..], false), [m[1]])
  {
    EncodedHead(m[1..]);
    assert m[1..][1..] == m[2..];
    var e := Encoded(m, true);
    assert e == [m[0], m[1]] + Encoded(m[2..], false);
    assert ("_" + e)[1..] == e && e[2..] == Encoded(m[2..], false);
    NoName(e);
    hide Find, Encoded;
  }

  lemma LaterCodeStep(m: string, found: string)
    requires IsBytes(m) && IsLowered(m) && LooksLikeLaterCode(m) && found != ""
    ensures Encoded(m, false) != ""
    ensures Untransform(Progress(Encoded(m, false), found)) ==
      Progress(Encoded(m[4..], false), found + [CodeOf(m[1..])])
  {
    LaterCode(m);
    LaterCodeRead(m, Encoded(m, false), Encoded(m[4..], false));
    hide Find, Encoded, IsHexCode, HexCode, CodeOf, LooksLikeLaterCode;
  }

  lemma LaterCodeRead(m: string, e: string, tail: string)
    requires LooksLikeLaterCode(m) && e == [m[0], m[1], m[2], m[3]] + tail
    ensures LooksLikeCode(m[1..]) && IsHexCode(e) && HexCode(e) == CodeOf(m[1..]) && e[4..] == tail
  {
  }

  lemma LaterCode(m: string)
    requires IsBytes(m) && IsLowered(m) && LooksLikeLaterCode(m)
    ensures Encoded(m, false) == [m[0], m[1], m[2], m[3]] + Encoded(m[4..], false)
  {
    LaterLength(m);
    LaterSimples(m);
    BytesRest(m);
    hide Encoded, LooksLikeLaterCode, IsSimple, IsBytes;
    EncodedSimple(m, false);
    EncodedSimple(m[1..], false);
    EncodedSimple(m[2..], false);
    EncodedSimple(m[3..], false);
    Four(m[0], m[1], m[2], m[3], Encoded(m[4..], false));
  }

  lemma BytesRest(m: string)
    requires IsBytes(m) && |m| >= 4
    ensures m[1..][1..] == m[2..] && m[2..][1..] == m[3..] && m[3..][1..] == m[4..]
    ensures IsBytes(m[1..]) && IsBytes(m[2..]) && IsBytes(m[3..]) && IsBytes(m[4..])
  {
  }

  lemma Four(a: char, b: char, c: char, d: char, tail: string)
    ensures [a] + ([b] + ([c] + ([d] + tail))) == [a, b, c, d] + tail
  {
  }

  lemma LaterSimples(m: string)
    requires LooksLikeLaterCode(m)
    ensures |m| >= 4 && IsSimple(m[0]) && IsSimple(m[1]) && IsSimple(m[2]) && IsSimple(m[3])
  {
  }

  /** One step of reading back: c stands for the first k characters. */
  ghost predicate ReadAs(m: string, found: string, k: nat, c: char)
    requires IsBytes(m) && m != ""
  {
    && 0 < k <= |m| && IsBytes(m[k..]) && IsLowered(m[k..]) && Encoded(m, found == "") != ""
    && Untransform(Progress(Encoded(m, found == ""), found)) == Progress(Encoded(m[k..], false), found + [c])
    && Collapsed(m, found == "") == [c] + Collapsed(m[k..], false)
  }

  lemma ReadStep(m: string, found: string) returns (k: nat, c: char)
    requires IsBytes(m) && IsLowered(m) && m != ""
    ensures ReadAs(m, found, k, c)
  {
    hide Untransform, Encoded, Piece, LooksLikeCode, LooksLikeDigit, LooksLikeLaterCode, CodeOf, IsBytes, IsLowered,
      IsSimple;
    k, c := 1, m[0];
    if !IsSimple(m[0]) {
      SpecialStart(m);
      Tail(m, 1);
      SpecialStep(m[0], Encoded(m[1..], false), found);
      EncodedOne(m, found == "");
    } else if found == "" && LooksLikeCode(m) {
      k, c := 3, CodeOf(m);
      FrontCodeStep(m);
      CodeLength(m);
      Tail(m, 3);
      assert found + [c] == [c];
    } else if found == "" && LooksLikeDigit(m) {
      DigitLength(m);
      k, c := 2, m[1];
      FrontDigitStep(m);
      Tail(m, 2);
      assert found + [c] == [c];
    } else if found != "" && LooksLikeLaterCode(m) {
      LaterLength(m);
      k, c := 4, CodeOf(m[1..]);
      LaterCodeStep(m, found);
      Tail(m, 4);
    } else {
      SimpleStep(m, found);
      Tail(m, 1);
    }
  }

  /** Reading back an encoding gives the name, with what looks like a code taken for one. */
  lemma {:induction false} ReadBack(m: string, found: string)
    requires IsBytes(m) && IsLowered(m)
    ensures Untransformed(Progress(Encoded(m, found == ""), found)) == found + Collapsed(m, found == "")
    decreases |m|
  {
    hide Untransform, Encoded, IsBytes, IsLowered;
    if m == "" {
      NothingEncoded(found == "");
    } else {
      var k, c := ReadStep(m, found);
      hide Collapsed;
      ReadBack(m[k..], found + [c]);
      Glue(found, c, Collapsed(m[k..], false));
    }
  }

  lemma Tail(m: string, k: nat)
    requires IsBytes(m) && IsLowered(m) && k <= |m|
    ensures IsBytes(m[k..]) && IsLowered(m[k..]) && (m != "" ==> m[0] as int < 256)
  {
  }

  lemma Glue(found: string, c: char, rest: string)
    ensures found + ([c] + rest) == (found + [c]) + rest
  {
  }

  lemma NothingEncoded(front: bool)
    ensures Encoded("", front) == ""
  {
  }

  lemma EncodedOne(m: string, front: bool)
    requires IsBytes(m) && m != ""
    ensures Encoded(m, front) == Piece(m[0], front) + Encoded(m[1..], false)
  {
  }

  lemma SpecialStart(m: string)
    requires m != "" && !IsSimple(m[0])
    ensures !LooksLikeCode(m) && !LooksLikeDigit(m) && !LooksLikeLaterCode(m)
  {
  }

  lemma CodeLength(m: string)
    requires LooksLikeCode(m)
    ensures |m| >= 3
  {
  }

  lemma DigitLength(m: string)
    requires LooksLikeDigit(m)
    ensures |m| >= 2
  {
  }

  lemma LaterLength(m: string)
    requires LooksLikeLaterCode(m)
    ensures |m| >= 4 && LooksLikeCode(m[1..])
  {
  }

  // ----- round trip -----

  lemma LowerLowered(s: string)
    ensures IsLowered(ToLower(s))
  {
  }

  /** Demangling gives back the part of the lowered name that was encoded, with
      what looks like a code taken for one. */
  lemma DemangledMangled(s: string)
    requires IsBytes(s) && !StartsWith(s, "__") && !IsReserved(s)
    ensures IsBytes(ToLower(s))
    ensures var m := ToLower(s); Demangled(Mangled(s)) == Collapsed(m[..Cut(m, 0)], true)
  {
    LowerBytes(s);
    LowerLowered(s);
    var m := ToLower(s);
    var k := Cut(m, 0);
    TransformedCut(m, "");
    ReadBack(m[..k], "");
    var t := Encoded(m[..k], true);
    assert Transformed(m, "") == t;
    hide ToLower, Encoded, Cut, Transformed, Collapsed, Untransformed;
    assert ("v4_" + t)[3..] == t;
    Prefixed(t);
    if t == "" {
      NothingLeft(m[..k]);
    }
  }

  lemma Prefixed(t: string)
    ensures var r := "v4_" + t;
      StartsWith(r, "v4_") && !IsReserved(r) && (|r| < 4 <==> t == "") && (r == "v4_" <==> t == "")
  {
    var r := "v4_" + t;
    assert r[0] == 'v';
  }

  lemma NothingLeft(m: string)
    requires IsBytes(m) && Encoded(m, true) == ""
    ensures m == "" && Collapsed(m, true) == ""
  {
    if m != "" { PieceShape(m[0], true); }
  }

  /** The round trip gives the lowered name back exactly when nothing in it looks
      like a code or a protected digit and all of it is encoded; reserved names come
      back as they are. */
  lemma RoundTrip(s: string)
    requires IsBytes(s) && !StartsWith(s, "__")
    ensures IsReserved(s) ==> Demangled(Mangled(s)) == s
    ensures !IsReserved(s) ==>
      IsBytes(ToLower(s)) && var m := ToLower(s); (Demangled(Mangled(s)) == m <==> Clean(m, true) && Cut(m, 0) == |m|)
  {
    if !IsReserved(s) {
      DemangledMangled(s);
      var m := ToLower(s);
      var k := Cut(m, 0);
      CollapsedLength(m[..k], true);
      CleanIsKept(m[..k], true);
      hide ToLower, Mangled, Demangled, Cut, Collapsed, Clean;
      if k == |m| { assert m[..k] == m; }
    }
  }

  /** A name that is read back. */
  predicate Readable(s: string) {
    IsBytes(s) && !StartsWith(s, "__") && (IsReserved(s) || Demangled(Mangled(s)) == ToLower(s))
  }

  /** So readable names that differ in more than case get different symbols. */
  lemma DistinctSymbols(s: string, t: string)
    requires Readable(s) && Readable(t) && IsReserved(s) == IsReserved(t)
    requires if IsReserved(s) then s != t else ToLower(s) != ToLower(t)
    ensures Mangled(s) != Mangled(t)
  {
    if IsReserved(s) { RoundTrip(s); RoundTrip(t); }
    hide Mangled, Demangled, ToLower, IsReserved;
  }

  /** A reserved name shares its symbol with no other name of this form. */
  lemma ReservedAlone(s: string, t: string)
    requires IsBytes(s) && IsBytes(t) && IsReserved(s) && !IsReserved(t) && !StartsWith(t, "__")
    ensures Mangled(s) != Mangled(t)
  {
    LowerBytes(t);
    Prefixed(Transformed(ToLower(t), ""));
  }

  /** The conditions are needed: an x or _x before two digits and a z before a digit get lost. */
  lemma NotReadable(s: string)
    requires s == "x41" || s == "z9" || s == "a_x41"
    ensures IsBytes(s) && !Readable(s)
  {
    assert s[0] != '_' && s[0] != 'm';
    assert !StartsWith(s, "__") && !IsReserved(s);
    var m := ToLower(s);
    assert m == s;
    if s == "a_x41" {
      assert LooksLikeLaterCode(m[1..]);
    }
    assert !Clean(m, true);
    hide Mangled, Demangled, Cut, Clean, ToLower;
    RoundTrip(s);
  }

  /** What such names are read as. */
  lemma Misread()
    ensures IsBytes("x41") && Demangled(Mangled("x41")) == "A"
    ensures IsBytes("z9") && Demangled(Mangled("z9")) == "9"
    ensures IsBytes("a_x41") && Demangled(Mangled("a_x41")) == "aA"
  {
    MisreadAs("x41", "A");
    MisreadAs("z9", "9");
    MisreadAs("a_x41", "aA");
  }

  lemma MisreadAs(s: string, r: string)
    requires (s == "x41" && r == "A") || (s == "z9" && r == "9") || (s == "a_x41" && r == "aA")
    ensures IsBytes(s) && Demangled(Mangled(s)) == r
  {
    hide Mangled, Demangled, Cut;
    assert s[0] != '_' && s[0] != 'm';
    assert !StartsWith(s, "__") && !IsReserved(s) && ToLower(s) == s;
    ShortCut(s, 0);
    DemangledMangled(s);
    assert s[..|s|] == s;
    assert s == "x41" ==> s[3..] == "" && Collapsed("", false) == "";
    assert s == "z9" ==> s[2..] == "";
    if s == "a_x41" {
      var t := s[1..];
      assert t == "_x41" && t[4..] == "" && t[1..] == "x41";
      assert Collapsed(t, false) == "A";
    }
  }

  /** All the special characters with a name of their own. */
  lemma NamesSpelled()
    ensures Entity('`') == "Backtick" && Entity('~') == "Tilde" && Entity('!') == "Store" && Entity('@') == "Fetch"
    ensures Entity('#') == "Hash" && Entity('$') == "Dollar" && Entity('%') == "Percent" && Entity('^') == "Caret"
    ensures Entity('&') == "Amp" && Entity('*') == "Star" && Entity('(') == "Paren" && Entity(')') == "Closeparen"
    ensures Entity('-') == "Minus" && Entity('=') == "Equals" && Entity('+') == "Plus" && Entity('[') == "Leftbracket"
    ensures Entity(']') == "Rightbracket" && Entity('{') == "Leftbrace" && Entity('}') == "Rightbrace"
    ensures Entity('|') == "Or"
    ensures Entity(';') == "Semicolon" && Entity(':') == "Colon" && Entity('"') == "Quote" && Entity('\'') == "Tick"
    ensures Entity(',') == "Comma" && Entity('.') == "Dot" && Entity('/') == "Slash" && Entity('<') == "Less"
    ensures Entity('>') == "Greater" && Entity('?') == "Question" && Entity('\\') == "Backslash"
  {
  }

  /** A character without a name is spelled with its code, in two digits. */
  lemma CodeSpelled(c: char)
    requires c as int < 256 && !IsSimple(c) && Entity(c) == ""
    ensures Piece(c, true) == ['x', "0123456789ABCDEF"[c as int / 16], "0123456789ABCDEF"[c as int % 16]]
    ensures Piece(c, false) == ['_', 'x', "0123456789ABCDEF"[c as int / 16], "0123456789ABCDEF"[c as int % 16]]
  {
    DigitSpelled(c as int / 16);
    DigitSpelled(c as int % 16);
    hide Entity, HexDigit;
  }

  lemma DigitSpelled(n: int)
    requires 0 <= n < 16
    ensures HexDigit(n) == "0123456789ABCDEF"[n]
  {
  }

  /** Names of up to 312 characters are encoded in full. */
  lemma {:induction false} ShortCut(m: string, length: nat)
    requires IsBytes(m) && length + 13 * |m| <= HIGH_WATER_MARK
    ensures Cut(m, length) == |m|
    decreases |m|
  {
    hide Piece;
    if m != "" {
      PieceShape(m[0], length == 0);
      ShortCut(m[1..], length + |Piece(m[0], length == 0)|);
    }
  }

  /** So for names of that length only what looks like a code matters. */
  lemma ShortName(s: string)
    requires IsBytes(s) && !StartsWith(s, "__") && !IsReserved(s) && |s| <= 312
    ensures Readable(s) <==> Clean(ToLower(s), true)
  {
    LowerBytes(s);
    ShortCut(ToLower(s), 0);
    hide Mangled, Demangled, Cut, Clean, StartsWith;
    RoundTrip(s);
  }

  lemma {:induction false} LongCut(m: string, length: nat)
    requires IsBytes(m) && length <= HIGH_WATER_MARK + 1
    ensures Cut(m, length) + length <= HIGH_WATER_MARK + 1
    decreases |m|
  {
    hide Piece;
    if m != "" && length <= HIGH_WATER_MARK {
      PieceShape(m[0], length == 0);
      var next := length + |Piece(m[0], length == 0)|;
      if next <= HIGH_WATER_MARK + 1 {
        LongCut(m[1..], next);
      }
    }
  }

  /** Names too long for the limit are never read back. */
  lemma LongName(s: string)
    requires IsBytes(s) && |s| > HIGH_WATER_MARK + 1
    ensures !Readable(s)
  {
    if !StartsWith(s, "__") {
      LowerBytes(s);
      LongCut(ToLower(s), 0);
      hide Mangled, Demangled, Cut, Clean, StartsWith;
      RoundTrip(s);
    }
  }

  lemma {:induction false} LettersStay(m: string, mangled: string)
    requires forall i :: 0 <= i < |m| ==> 'a' <= m[i] <= 'z' || m[i] == '_'
    requires |mangled| + |m| <= HIGH_WATER_MARK
    ensures IsBytes(m) && Transformed(m, mangled) == mangled + m
    decreases |m|
  {
    if m != "" {
      LettersStay(m[1..], mangled + [m[0]]);
    }
  }

  /** s consists of letters and underscores, not two of them in front, and is m in
      lower case. */
  predicate LettersOf(s: string, m: string) {
    && |s| == |m| && !StartsWith(s, "__")
    && (forall i :: 0 <= i < |m| ==>
          ('a' <= m[i] <= 'z' || m[i] == '_') && Lower(s[i]) == m[i] && (IsAlpha(s[i]) || s[i] == '_'))
  }

  lemma LettersLower(s: string, m: string)
    requires LettersOf(s, m)
    ensures ToLower(s) == m && IsBytes(s) && !StartsWith(s, "__") && s != "__"
  {
  }

  /** A word of letters gets its lowered self behind the prefix. */
  lemma LettersMangle(s: string, m: string)
    requires LettersOf(s, m) && |m| <= HIGH_WATER_MARK && !IsReserved(s)
    ensures IsBytes(s) && Mangled(s) == "v4_" + m
  {
    LettersLower(s, m);
    LettersStay(m, "");
    assert "" + m == m;
    hide Transformed, ToLower, StartsWith, IsReserved, LettersOf, IsBytes;
  }

  /** The names by which the optimizer knows the library's true and false. */
  lemma TrueSymbol(s: string)
    requires s == "TRUE" || s == "true"
    ensures IsBytes(s) && Mangled(s) == SmallWords.MANGLED_TRUE
  {
    hide Mangled, ToLower;
    assert s[0] != '_' && s[0] != 'm';
    LettersMangle(s, "true");
  }

  lemma FalseSymbol(s: string)
    requires s == "FALSE" || s == "false"
    ensures IsBytes(s) && Mangled(s) == SmallWords.MANGLED_FALSE
  {
    hide Mangled, ToLower;
    assert s[0] != '_' && s[0] != 'm';
    LettersMangle(s, "false");
  }

  /** The words of the library that strings and messages are handed to. */
  lemma TypeSymbol()
    ensures IsBytes("_type") && Mangled("_type") == Statements.TYPE_WORD
  {
    hide Mangled, ToLower;
    assert "_type"[1] == 't';
    LettersMangle("_type", "_type");
  }

  lemma AbortSymbol()
    ensures IsBytes("_abortquote") && Mangled("_abortquote") == Statements.ABORT_WORD
  {
    hide Mangled, ToLower;
    assert "_abortquote"[1] == 'a';
    LettersMangle("_abortquote", "_abortquote");
  }

  /** The main word has the name that the linker looks for. */
  lemma MainSymbol()
    ensures IsBytes("main") && Mangled("main") == Elements.MAIN
  {
  }
}
