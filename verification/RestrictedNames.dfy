/** Names that start with two underscores: mangled without the prefix and as they are,
    capitals included.  They are read back only when there was nothing to encode. */
module RestrictedNames {
  import opened Letters
  import opened Options
  import opened Manglers
  import opened MangledNames

  // ----- names that come back -----

  /** Letters, digits and underscores, no digit first, not too long, and not like a
      symbol of another kind. */
  predicate Verbatim(t: string) {
    && t != "" && !('0' <= t[0] <= '9') && |t| <= 4065
    && (forall i :: 0 <= i < |t| ==>
          t[i] == '_' || '0' <= t[i] <= '9' || 'a' <= t[i] <= 'z' || 'A' <= t[i] <= 'Z')
    && t[..if |t| < 3 then |t| else 3] != "v4_" && t != "main" && t != "_start"
  }

  /** As long as there is room, letters, digits and underscores stay as they are. */
  lemma {:induction false} SimplesStay(m: string, mangled: string)
    requires AllSimple(m) && (mangled == "" && m != "" ==> !IsDigit(m[0]))
    requires |mangled| <= HIGH_WATER_MARK + 1
    ensures IsBytes(m)
    ensures Transformed(m, mangled) ==
      mangled + if |mangled| + |m| <= HIGH_WATER_MARK + 1 then m else m[..HIGH_WATER_MARK + 1 - |mangled|]
    decreases |m|
  {
    if m != "" {
      if |mangled| <= HIGH_WATER_MARK {
        SimplesStay(m[1..], mangled + [m[0]]);
      } else {
        Unmoved(m, mangled);
      }
    }
  }

  /** The restricted form of a name. */
  lemma RestrictedMangled(t: string)
    requires IsBytes(t)
    ensures IsBytes("__" + t) && Mangled("__" + t) == Transformed(t, "")
    ensures Mangled("__" + t) == Encoded(t[..Cut(t, 0)], true)
  {
    TransformedCut(t, "");
    hide Transformed, Encoded, Cut;
    var s := "__" + t;
    assert s[0] == '_' && s[1] == '_' && s[2..] == t;
    assert StartsWith(s, "__");
    if t == "" {
      assert s == "__" && t[..Cut(t, 0)] == "";
      NothingEncoded(true);
      Unmoved("", "");
    } else {
      assert |s| != |"__"|;
      assert !IsReserved(s) by { assert "_start"[1] == 's' && "main"[0] == 'm'; }
    }
  }

  lemma PrefixOf(t: string)
    ensures StartsWith(t, "v4_") <==> t[..if |t| < 3 then |t| else 3] == "v4_"
  {
    if |t| >= 3 { assert t[..3] == [t[0], t[1], t[2]]; }
  }

  /** Nothing is encoded exactly when the name is made of letters, digits and
      underscores, does not start with a digit, and is not too long. */
  lemma NothingToEncode(t: string)
    requires IsBytes(t) && t != ""
    ensures Transformed(t, "") == t <==> AllSimple(t) && !IsDigit(t[0]) && |t| <= HIGH_WATER_MARK + 1
  {
    TransformedShape(t, "");
    if AllSimple(t) {
      if IsDigit(t[0]) {
        FirstDigit(t);
      } else {
        SimplesStay(t, "");
        hide Transformed;
        assert "" + t == t;
        if |t| > HIGH_WATER_MARK + 1 { assert |t[..HIGH_WATER_MARK + 1]| < |t|; }
      }
    }
  }

  lemma FirstDigit(t: string)
    requires IsBytes(t) && t != "" && IsDigit(t[0])
    ensures Transformed(t, "") != t
  {
    TransformedCut(t, "");
    hide Transformed, Encoded;
    var m := t[..Cut(t, 0)];
    assert m[0] == t[0];
    EncodedOne(m, true);
    assert Piece(t[0], true) == ['z', t[0]];
    assert ("" + Encoded(m, true))[0] == 'z';
  }

  // ----- names that start like the symbol of an ordinary name -----

  /** Up to its first underscore an encoding is the name itself. */
  lemma {:induction false} SimplePrefix(u: string, n: nat)
    requires IsBytes(u) && n <= |Encoded(u, false)|
    requires forall i :: 0 <= i < n ==> Encoded(u, false)[i] != '_'
    ensures n <= |u| && IsBytes(u[n..]) && Encoded(u, false)[n..] == Encoded(u[n..], false)
    decreases n
  {
    hide Encoded;
    if n == 0 {
      assert u[0..] == u;
    } else {
      var e := Encoded(u, false);
      NoUnderscore(u);
      assert e[1..] == Encoded(u[1..], false);
      forall i | 0 <= i < n - 1 ensures Encoded(u[1..], false)[i] != '_' { assert e[i + 1] == e[1..][i]; }
      SimplePrefix(u[1..], n - 1);
      assert u[1..][n - 1..] == u[n..] && e[1..][n - 1..] == e[n..];
    }
  }

  lemma NoUnderscore(u: string)
    requires IsBytes(u) && Encoded(u, false) != "" && Encoded(u, false)[0] != '_'
    ensures u != "" && Encoded(u, false) == [u[0]] + Encoded(u[1..], false)
  {
  }

  /** One step of reading stands for one character or more. */
  ghost predicate Consumes(u: string, found: string, n: nat)
    requires IsBytes(u) && Encoded(u, false) != ""
  {
    && 0 < n <= |u| && IsBytes(u[n..])
    && exists c: char ::
      Untransform(Progress(Encoded(u, false), found)) == Progress(Encoded(u[n..], false), found + [c])
  }

  /** Behind the front. */
  lemma LaterStep(u: string, found: string) returns (n: nat)
    requires IsBytes(u) && u != "" && found != ""
    ensures Encoded(u, false) != "" && Consumes(u, found, n)
  {
    EncodedOne(u, false);
    PieceShape(u[0], false);
    n := 1;
    if IsSimple(u[0]) {
      n := LaterSimpleStep(u, found);
    } else {
      SpecialStep(u[0], Encoded(u[1..], false), found);
    }
  }

  /** Read from the front, several characters that make one hold no underscore. */
  lemma FrontRead(e: string) returns (k: nat, c: char)
    requires e != ""
    ensures 0 < k <= |e| && Untransform(Progress(e, "")) == Progress(e[k..], "" + [c])
    ensures k == 1 || forall i :: 0 <= i < k ==> e[i] != '_'
  {
    hide Find, Entity, HexCode;
    var ss := "_" + e;
    assert ss[1..] == e;
    if IsHexCode(ss) {
      k, c := 3, HexCode(ss);
    } else if Find(0, e).Some? {
      c := Find(0, e).value;
      FindSound(0, e);
      EntityNamed(c, e);
      k := |Entity(c)|;
    } else if |e| > 1 && e[0] == 'z' && IsDigit(e[1]) {
      k, c := 2, e[1];
    } else {
      k, c := 1, e[0];
    }
  }

  /** Later on, only the first of them may be an underscore. */
  lemma LaterRead(e: string, found: string) returns (k: nat, c: char)
    requires e != "" && found != ""
    ensures 0 < k <= |e| && Untransform(Progress(e, found)) == Progress(e[k..], found + [c])
    ensures forall i :: 0 < i < k ==> e[i] != '_'
  {
    hide Find, Entity, HexCode;
    if IsHexCode(e) {
      k, c := 4, HexCode(e);
    } else if e[0] == '_' && Find(0, e[1..]).Some? {
      c := Find(0, e[1..]).value;
      FindSound(0, e[1..]);
      EntityNamed(c, e[1..]);
      k := |Entity(c)| + 1;
    } else {
      k, c := 1, e[0];
    }
  }

  lemma LaterSimpleStep(u: string, found: string) returns (n: nat)
    requires IsBytes(u) && u != "" && IsSimple(u[0]) && found != ""
    ensures Encoded(u, false) != "" && Consumes(u, found, n)
  {
    hide Encoded, Untransform, IsSimple;
    EncodedSimple(u, false);
    var e := Encoded(u, false);
    var c;
    n, c := LaterRead(e, found);
    assert e[1..] == Encoded(u[1..], false);
    SimplePrefix(u[1..], n - 1);
    assert u[1..][n - 1..] == u[n..] && e[1..][n - 1..] == e[n..];
  }

  /** At the front, where an underscore is put back first. */
  lemma FrontStep(u: string) returns (n: nat)
    requires IsBytes(u) && u != "" && IsSimple(u[0])
    ensures Encoded(u, false) != "" && Consumes(u, "", n)
  {
    hide Encoded, Untransform, IsSimple;
    EncodedSimple(u, false);
    var e := Encoded(u, false);
    var c;
    n, c := FrontRead(e);
    if n == 1 {
      assert e[1..] == Encoded(u[1..], false);
    } else {
      SimplePrefix(u, n);
    }
  }

  /** So no more characters are read back than were encoded. */
  lemma {:induction false} NotLonger(u: string, found: string)
    requires IsBytes(u) && (found == "" && u != "" ==> IsSimple(u[0]))
    ensures |Untransformed(Progress(Encoded(u, false), found))| <= |found| + |u|
    decreases |u|
  {
    hide Encoded, Untransform, IsSimple;
    if u == "" {
      NothingEncoded(false);
    } else {
      var n;
      if found == "" { n := FrontStep(u); } else { n := LaterStep(u, found); }
      var c :| Untransform(Progress(Encoded(u, false), found)) == Progress(Encoded(u[n..], false), found + [c]);
      NotLonger(u[n..], found + [c]);
    }
  }

  /** What has been found stays. */
  lemma {:induction false} FoundStays(p: Progress)
    ensures |p.found| <= |Untransformed(p)| && Untransformed(p)[..|p.found|] == p.found
    decreases |p.rest|
  {
    if p.rest == "" {
      assert p.found[..|p.found|] == p.found;
    } else {
      var q := Untransform(p);
      FoundKept(p);
      hide Untransform;
      FoundStays(q);
      assert Untransformed(q)[..|q.found|][..|p.found|] == Untransformed(q)[..|p.found|];
    }
  }

  lemma FoundKept(p: Progress)
    requires p.rest != ""
    ensures var q := Untransform(p); |q.found| == |p.found| + 1 && q.found[..|p.found|] == p.found
  {
    hide Find, HexCode, Entity;
  }

  /** An underscore that is followed by the name or the code of a special character is
      read as it is, and so is the character after it. */
  lemma UnderscoreName(c: char, rest: string)
    requires c as int < 256 && !IsSimple(c)
    ensures var d := Untransformed(Progress("_" + (Special(c) + rest), "")); |d| >= 2 && d[1] != '_'
  {
    hide Untransform, Special, IsSimple;
    var tail := Special(c) + rest;
    SpecialHead(c);
    assert tail[0] == Special(c)[0];
    UnderscoreAlone(tail);
    NoUnderscoreRead(tail, "_");
    var d := Untransformed(Progress("_" + tail, ""));
    assert d == Untransformed(Progress(tail, "_"));
    assert d == Untransformed(Progress(tail[1..], "_" + [tail[0]]));
    FoundStays(Progress(tail[1..], "_" + [tail[0]]));
    assert d[..2][1] == tail[0];
  }

  lemma SpecialHead(c: char)
    requires c as int < 256 && !IsSimple(c)
    ensures Special(c) != "" && ('A' <= Special(c)[0] <= 'Z' || Special(c)[0] == 'x')
  {
    EntityNamed(c, "");
    hide Entity;
  }

  lemma NoUnderscoreRead(tail: string, found: string)
    requires tail != "" && tail[0] != '_' && found != ""
    ensures Untransform(Progress(tail, found)) == Progress(tail[1..], found + [tail[0]])
  {
    hide Find, Entity, HexCode;
  }

  lemma UnderscoreAlone(tail: string)
    requires tail != "" && tail[0] != '_'
    ensures Untransform(Progress("_" + tail, "")) == Progress(tail, "_")
  {
    var e := "_" + tail;
    var ss := "_" + e;
    assert ss[1..] == e && e[1..] == tail;
    NoName(e);
    hide Find;
  }

  /** What an encoding behind v4_ is read as: less than was encoded, or something else. */
  lemma ReadDiffers(w: string)
    requires IsBytes(w) && StartsWith(Encoded(w, true), "v4_") && |Encoded(w, true)| >= 4
    ensures var d := Untransformed(Progress(Encoded(w, true)[3..], ""));
      |d| < |w| || (|d| >= 2 && d[1] != '_')
  {
    var e := Encoded(w, true);
    ThreeRead(w);
    hide Encoded, Untransformed, Untransform, IsSimple, Special;
    var v := w[3..];
    if IsSimple(w[2]) {
      if v == "" {
        NothingEncoded(false);
      } else if IsSimple(v[0]) {
        NotLonger(v, "");
      } else {
        EncodedOne(v, false);
        LaterPiece(v[0], Encoded(v[1..], false));
        UnderscoreName(v[0], Encoded(v[1..], false));
      }
    } else {
      SpecialStep(w[2], Encoded(v, false), "");
      NotLonger(v, [w[2]]);
      ReadFirst(w[2], Encoded(v, false));
    }
  }

  lemma LaterPiece(c: char, tail: string)
    requires c as int < 256 && !IsSimple(c)
    ensures Piece(c, false) + tail == "_" + (Special(c) + tail)
  {
  }

  lemma ReadFirst(c: char, tail: string)
    requires c as int < 256 && !IsSimple(c)
    ensures Untransformed(Progress(Special(c) + tail, "")) == Untransformed(Progress(tail, [c]))
  {
    SpecialStep(c, tail, "");
    assert Piece(c, true) == Special(c);
    assert "" + [c] == [c];
    hide Special, Untransform;
  }

  /** The first three characters of such an encoding. */
  lemma ThreeRead(w: string)
    requires IsBytes(w) && StartsWith(Encoded(w, true), "v4_")
    ensures |w| >= 3 && IsBytes(w[3..])
    ensures Encoded(w, true)[3..] == if IsSimple(w[2]) then Encoded(w[3..], false)
      else Special(w[2]) + Encoded(w[3..], false)
  {
    hide Encoded, Piece, Special;
    var e := Encoded(w, true);
    assert e[0] == 'v' && e[1] == '4' && e[2] == '_';
    NothingEncoded(true);
    EncodedOne(w, true);
    var u := w[1..];
    FirstIs(w[0], Encoded(u, false));
    assert e[1..] == Encoded(u, false) && e[1..][0] == '4';
    NoUnderscore(u);
    var x := w[2..];
    assert u[1..] == x && e[1..][1..] == Encoded(x, false) && e[1..][1..][0] == '_';
    NothingEncoded(false);
    EncodedOne(x, false);
    assert x[1..] == w[3..] && e[3..] == Encoded(x, false)[1..];
    if IsSimple(x[0]) {
      assert Piece(x[0], false) == [x[0]] by { SimplePiece(x[0]); }
    } else {
      LaterPiece(x[0], Encoded(w[3..], false));
    }
  }

  lemma SimplePiece(c: char)
    requires c as int < 256 && IsSimple(c)
    ensures Piece(c, false) == [c]
  {
  }

  lemma FirstIs(c: char, tail: string)
    requires c as int < 256 && (Piece(c, true) + tail)[0] == 'v'
    ensures c == 'v' && Piece(c, true) == [c]
  {
    PieceShape(c, true);
    if !IsSimple(c) { SpecialHead(c); }
  }

  // ----- the law -----

  /** A name of this form comes back exactly when it was left alone, capitals included;
      and then its symbol is what follows the two underscores. */
  lemma RestrictedTrip(t: string)
    requires IsBytes(t) && t != ""
    ensures IsBytes("__" + t) && (Demangled(Mangled("__" + t)) == "__" + t <==> Verbatim(t))
    ensures Verbatim(t) ==> Mangled("__" + t) == t
  {
    RestrictedMangled(t);
    NothingToEncode(t);
    VerbatimIs(t);
    hide Mangled, Demangled, Transformed, Encoded, Verbatim, Untransformed, AllSimple;
    RestrictedRead(t, Mangled("__" + t));
  }

  lemma VerbatimIs(t: string)
    requires IsBytes(t) && t != ""
    ensures Verbatim(t) <==>
      && AllSimple(t) && !IsDigit(t[0]) && |t| <= HIGH_WATER_MARK + 1 && !StartsWith(t, "v4_") && !IsReserved(t)
  {
    PrefixOf(t);
  }

  lemma RestrictedRead(t: string, e: string)
    requires IsBytes(t) && t != "" && e == Encoded(t[..Cut(t, 0)], true)
    ensures Demangled(e) == "__" + t <==> e == t && !StartsWith(t, "v4_") && !IsReserved(t)
  {
    hide Encoded, Cut, Untransformed;
    var s := "__" + t;
    assert s[0] == '_' && s[1] == '_';
    assert s != e || s[1] == '_';
    if IsReserved(e) {
      assert s != e by { assert "_start"[1] == 's' && "main"[0] == 'm'; }
    } else if |e| < 4 || !StartsWith(e, "v4_") {
      if e != "v4_" {
        assert s[2..] == t && ("__" + e)[2..] == e;
        if |e| < 4 { Short(e); }
      }
    } else {
      ReadDiffers(t[..Cut(t, 0)]);
    }
  }

  /** With three characters there is only v4_ itself. */
  lemma Short(e: string)
    requires e != "v4_" && |e| < 4
    ensures !StartsWith(e, "v4_")
  {
    if |e| == 3 { assert e == [e[0], e[1], e[2]]; }
  }

  /** Two underscores alone come back as well. */
  lemma Underscores()
    ensures IsBytes("__") && Demangled(Mangled("__")) == "__"
  {
    assert "__"[1] == '_';
  }

  /** So such names with different characters, or only different case, get different
      symbols. */
  lemma RestrictedDistinct(t: string, u: string)
    requires Verbatim(t) && Verbatim(u) && t != u
    ensures IsBytes("__" + t) && IsBytes("__" + u) && Mangled("__" + t) != Mangled("__" + u)
  {
    RestrictedTrip(t);
    RestrictedTrip(u);
    hide Mangled, Verbatim;
  }

  /** Any other name is lowered, mangled in the restricted form, and gets the prefix. */
  lemma OrdinaryForm(s: string)
    requires IsBytes(s) && !StartsWith(s, "__") && !IsReserved(s)
    ensures IsBytes("__" + ToLower(s)) && Mangled(s) == "v4_" + Mangled("__" + ToLower(s))
  {
    LowerBytes(s);
    RestrictedMangled(ToLower(s));
    hide Transformed, ToLower, Encoded;
    assert s != "__";
  }

  /** Behind two underscores the symbol of any other name stands for itself, so a word
      can be called by its symbol; only symbols near the limit are cut. */
  lemma CalledBySymbol(s: string)
    requires IsBytes(s) && !StartsWith(s, "__")
    ensures var m := Mangled(s); IsBytes("__" + m) && (Mangled("__" + m) == m <==> |m| <= 4065)
  {
    var m := Mangled(s);
    MangledIsIdentifier(s);
    RestrictedMangled(m);
    NothingToEncode(m);
    hide Mangled, Transformed, Encoded;
  }
}
