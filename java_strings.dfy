/**
 * The two string operations of the Java library that the schema relies on:
 * `StringUtils.isBlank` (commons-lang) and `String.split("\\.")`, together with
 * the dot-join that `Schema.getMapper` performs with a `StringBuilder`.
 */
module JavaStrings {
  import opened Results

  /** `Character.isWhitespace` of Java 7 and 8 (Unicode 6.0 and 6.2): the ASCII
      controls 9-13 and 28-31, and the Unicode space, line and paragraph
      separators other than the non-breaking ones. Those versions still class
      the Mongolian vowel separator U+180E as a space separator. */
  predicate IsWhitespace(c: char) {
    || c == ' '
    || ('\t' <= c <= '\r')
    || ('\U{1C}' <= c <= '\U{1F}')
    || c == '\U{1680}' || c == '\U{180E}'
    || ('\U{2000}' <= c <= '\U{2006}')
    || ('\U{2008}' <= c <= '\U{200A}')
    || c == '\U{2028}' || c == '\U{2029}' || c == '\U{205F}' || c == '\U{3000}'
  }

  /** `StringUtils.isBlank`: the string is null, empty or whitespace only. */
  predicate IsBlank(s: Option<string>) {
    match s
    case None => true
    case Some(t) => forall i :: 0 <= i < |t| ==> IsWhitespace(t[i])
  }

  /** `StringUtils.isBlank` on the cases its documentation lists: null, the empty
      string and whitespace only are blank; any other character makes a string not
      blank, including a no-break space, which `Character.isWhitespace` rejects. */
  lemma BlankExamples()
    ensures IsBlank(None) && IsBlank(Some("")) && IsBlank(Some(" ")) && IsBlank(Some(" \t\r\n"))
    ensures !IsBlank(Some("bob")) && !IsBlank(Some("  bob  "))
    ensures !IsBlank(Some("\U{00A0}")) && IsBlank(Some("\U{180E}"))
  {
    assert "  bob  "[2] == 'b';
    assert "bob"[0] == 'b';
    assert "\U{00A0}"[0] == '\U{00A0}';
  }

  /** Joins components with '.' between consecutive ones, left to right. */
  function JoinDots(parts: seq<string>): string
    decreases |parts|
  {
    if |parts| == 0 then ""
    else if |parts| == 1 then parts[0]
    else JoinDots(parts[..|parts| - 1]) + "." + parts[|parts| - 1]
  }

  /** Splits `s` at every '.', keeping every (possibly empty) piece: a string
      with k dots gives k + 1 pieces. */
  function RawSplit(s: string): (r: seq<string>)
    ensures |r| >= 1
    decreases |s|
  {
    if s == [] then [""]
    else
      var pre := RawSplit(s[..|s| - 1]);
      var c := s[|s| - 1];
      if c == '.' then pre + [""]
      else pre[..|pre| - 1] + [pre[|pre| - 1] + [c]]
  }

  /** Drops the empty strings at the end of a list of pieces. */
  function StripTrailingEmpty(p: seq<string>): (r: seq<string>)
    ensures |r| <= |p| && r == p[..|r|]
    ensures forall k :: |r| <= k < |p| ==> p[k] == ""
    ensures |r| > 0 ==> r[|r| - 1] != ""
  {
    if |p| > 0 && p[|p| - 1] == "" then StripTrailingEmpty(p[..|p| - 1]) else p
  }

  /** `s.split("\\.")` in Java: when the pattern does not occur the result is `[s]`
      (so `""` gives `[""]`); otherwise the pieces between dots with the trailing
      empty pieces removed (so `"a.b."` gives `["a", "b"]` and `"."` gives `[]`). */
  function JavaSplit(s: string): (r: seq<string>)
    ensures '.' !in s ==> r == [s]
    ensures '.' in s && |r| > 0 ==> r[|r| - 1] != ""
  {
    if '.' !in s then [s]
    else StripTrailingEmpty(RawSplit(s))
  }

  /** Java's split keeps a prefix of the raw pieces: it only drops pieces at the end. */
  lemma JavaSplitPrefix(s: string)
    ensures |JavaSplit(s)| <= |RawSplit(s)| && JavaSplit(s) == RawSplit(s)[..|JavaSplit(s)|]
  {
    if '.' !in s {
      RawSplitNoDot(s);
    }
  }

  /** No piece of a split contains a dot, and a string that does not end with a
      dot has a non-empty last piece. */
  lemma {:induction false} RawSplitPieces(s: string)
    ensures forall k :: 0 <= k < |RawSplit(s)| ==> '.' !in RawSplit(s)[k]
    ensures s != "" && s[|s| - 1] != '.' ==> RawSplit(s)[|RawSplit(s)| - 1] != ""
    decreases |s|
  {
    if s != [] {
      var t := s[..|s| - 1];
      RawSplitPieces(t);
      var pre := RawSplit(t);
      var c := s[|s| - 1];
      if c != '.' {
        var last := pre[|pre| - 1] + [c];
        assert '.' !in pre[|pre| - 1];
        assert '.' !in last by {
          forall i | 0 <= i < |last| ensures last[i] != '.' {
            if i < |pre[|pre| - 1]| {
              assert last[i] == pre[|pre| - 1][i];
            }
          }
        }
        assert RawSplit(s) == pre[..|pre| - 1] + [last];
      } else {
        assert RawSplit(s) == pre + [""];
      }
    }
  }

  /** Java's split yields the pieces between dots, none containing a dot; it drops
      only empty pieces at the end, and keeps the whole string when it has no dot. */
  lemma JavaSplitSpec(s: string)
    ensures '.' !in s ==> JavaSplit(s) == [s]
    ensures '.' in s ==> forall k :: |JavaSplit(s)| <= k < |RawSplit(s)| ==> RawSplit(s)[k] == ""
    ensures '.' in s && |JavaSplit(s)| > 0 ==> JavaSplit(s)[|JavaSplit(s)| - 1] != ""
    ensures forall k :: 0 <= k < |JavaSplit(s)| ==> '.' !in JavaSplit(s)[k]
    ensures |JavaSplit(s)| <= |RawSplit(s)| && JavaSplit(s) == RawSplit(s)[..|JavaSplit(s)|]
  {
    RawSplitPieces(s);
    JavaSplitPrefix(s);
  }

  /** A string without dots is a single piece. */
  lemma {:induction false} RawSplitNoDot(s: string)
    requires '.' !in s
    ensures RawSplit(s) == [s]
    decreases |s|
  {
    if s != [] {
      var t := s[..|s| - 1];
      assert forall i :: 0 <= i < |t| ==> t[i] == s[i];
      RawSplitNoDot(t);
      assert s == t + [s[|s| - 1]];
    }
  }

  /** Joining the pieces of a split with '.' gives the string back. */
  lemma {:induction false} JoinRawSplit(s: string)
    ensures JoinDots(RawSplit(s)) == s
    decreases |s|
  {
    if s != [] {
      var t := s[..|s| - 1];
      var c := s[|s| - 1];
      var pre := RawSplit(t);
      JoinRawSplit(t);
      assert s == t + [c];
      var r := RawSplit(s);
      if c == '.' {
        assert r == pre + [""];
        assert r[..|r| - 1] == pre;
      } else {
        var k := |pre|;
        assert r == pre[..k - 1] + [pre[k - 1] + [c]];
        if k > 1 {
          assert r[..|r| - 1] == pre[..k - 1];
          assert JoinDots(pre) == JoinDots(pre[..k - 1]) + "." + pre[k - 1];
        }
      }
    }
  }

  /** One more character either opens a new piece (a '.') or extends the last one. */
  lemma RawSplitSnoc(s: string, c: char)
    ensures c == '.' ==> RawSplit(s + [c]) == RawSplit(s) + [""]
    ensures c != '.' ==>
      RawSplit(s + [c]) == RawSplit(s)[..|RawSplit(s)| - 1] + [RawSplit(s)[|RawSplit(s)| - 1] + [c]]
  {
    var u := s + [c];
    assert u[..|u| - 1] == s && u[|u| - 1] == c;
  }

  /** Appending an element to the right part of a concatenation appends it to
      the whole. */
  lemma AppendAssoc<T>(s: seq<T>, t: seq<T>, c: T)
    ensures s + (t + [c]) == (s + t) + [c]
  {
  }

  /** A dot more after a dot-joined pair: if splitting the pair splits each side,
      it still does with the dot appended to the right side. */
  lemma RawSplitConcatDot(s: string, t: string)
    requires RawSplit(s + "." + t) == RawSplit(s) + RawSplit(t)
    ensures RawSplit(s + "." + (t + ".")) == RawSplit(s) + RawSplit(t + ".")
  {
    AppendAssoc(s + ".", t, '.');
    RawSplitSnoc(s + "." + t, '.');
    RawSplitSnoc(t, '.');
    AppendAssoc(RawSplit(s), RawSplit(t), "");
  }

  /** Replacing the last piece of a concatenation replaces the last piece of its
      right part. */
  lemma ReplaceLast(a: seq<string>, p: seq<string>, e: string)
    requires |p| >= 1
    ensures (a + p)[|a + p| - 1] == p[|p| - 1]
    ensures (a + p)[..|a + p| - 1] + [e] == a + (p[..|p| - 1] + [e])
  {
    assert (a + p)[..|a + p| - 1] == a + p[..|p| - 1];
  }

  /** A character other than a dot after a dot-joined pair: if splitting the pair
      splits each side, it still does with the character appended to the right side. */
  lemma RawSplitConcatChar(s: string, t: string, c: char)
    requires c != '.'
    requires RawSplit(s + "." + t) == RawSplit(s) + RawSplit(t)
    ensures RawSplit(s + "." + (t + [c])) == RawSplit(s) + RawSplit(t + [c])
  {
    AppendAssoc(s + ".", t, c);
    RawSplitSnoc(s + "." + t, c);
    RawSplitSnoc(t, c);
    var p := RawSplit(t);
    ReplaceLast(RawSplit(s), p, p[|p| - 1] + [c]);
  }

  /** Splitting at a dot splits each side independently. */
  lemma {:induction false} RawSplitConcat(s: string, t: string)
    ensures RawSplit(s + "." + t) == RawSplit(s) + RawSplit(t)
    decreases |t|
  {
    if t == [] {
      RawSplitSnoc(s, '.');
      assert s + "." + t == s + ['.'];
      assert RawSplit(t) == [""];
    } else {
      var t' := t[..|t| - 1];
      assert t == t' + [t[|t| - 1]];
      RawSplitConcat(s, t');
      if t[|t| - 1] == '.' {
        RawSplitConcatDot(s, t');
      } else {
        RawSplitConcatChar(s, t', t[|t| - 1]);
      }
    }
  }

  /** Without a trailing dot nothing is dropped: Java's split is the raw split. */
  lemma JavaSplitNoTrailingDot(s: string)
    requires s == "" || s[|s| - 1] != '.'
    ensures JavaSplit(s) == RawSplit(s)
  {
    RawSplitPieces(s);
    if '.' !in s {
      RawSplitNoDot(s);
    }
  }

  /** Joining the first n pieces gives a prefix of the joined whole, and unless n
      takes every piece that prefix is followed by a '.'. */
  lemma {:induction false} JoinPrefix(p: seq<string>, n: nat)
    requires 1 <= n <= |p|
    ensures JoinDots(p[..n]) <= JoinDots(p)
    ensures n < |p| ==> |JoinDots(p[..n])| < |JoinDots(p)| && JoinDots(p)[|JoinDots(p[..n])|] == '.'
    decreases |p|
  {
    if n < |p| {
      var q := p[..|p| - 1];
      assert q[..n] == p[..n];
      assert JoinDots(p) == JoinDots(q) + "." + p[|p| - 1];
      if n < |q| {
        JoinPrefix(q, n);
      } else {
        assert q == p[..n];
      }
    } else {
      assert p[..n] == p;
    }
  }

  /** The first n elements of a prefix are the first n elements of the whole. */
  lemma SliceOfPrefix(whole: seq<string>, prefix: seq<string>, n: nat)
    requires |prefix| <= |whole| && prefix == whole[..|prefix|] && n <= |prefix|
    ensures prefix[..n] == whole[..n]
  {
  }

  /** The first n dot-separated components of `field`, joined back with '.'. */
  function DotPrefix(field: string, n: nat): string
    requires 1 <= n <= |JavaSplit(field)|
  {
    JoinDots(JavaSplit(field)[..n])
  }

  /** Every candidate is a prefix of the field; a candidate with fewer components
      is strictly shorter and ends exactly where the field has a '.'. */
  lemma DotPrefixIsPrefix(field: string, n: nat)
    requires 1 <= n <= |JavaSplit(field)|
    ensures DotPrefix(field, n) <= field
    ensures n < |JavaSplit(field)| ==>
      && |DotPrefix(field, n)| < |DotPrefix(field, n + 1)|
      && |DotPrefix(field, n)| < |field| && field[|DotPrefix(field, n)|] == '.'
  {
    var raw := RawSplit(field);
    var comps := JavaSplit(field);
    JavaSplitPrefix(field);
    SliceOfPrefix(raw, comps, n);
    assert DotPrefix(field, n) == JoinDots(raw[..n]);
    JoinRawSplit(field);
    JoinPrefix(raw, n);
    if n < |comps| {
      SliceOfPrefix(raw, comps, n + 1);
      SliceOfPrefix(raw, raw[..n + 1], n);
      assert DotPrefix(field, n + 1) == JoinDots(raw[..n + 1]);
      JoinPrefix(raw[..n + 1], n);
    }
  }

  /** Unless it ends with a '.', a field is its own longest candidate. */
  lemma FieldIsLongestCandidate(field: string)
    requires field == "" || field[|field| - 1] != '.'
    ensures |JavaSplit(field)| >= 1 && DotPrefix(field, |JavaSplit(field)|) == field
  {
    var comps := JavaSplit(field);
    if '.' in field {
      var raw := RawSplit(field);
      RawSplitPieces(field);
      assert |comps| == |raw|;
      assert comps[..|comps|] == comps == raw;
      JoinRawSplit(field);
    } else {
      assert comps[..|comps|] == [field];
    }
  }

  /** A field that ends with a '.' is never one of its own candidates: the split
      drops the empty piece after the last '.', so even the longest candidate
      stops before it. */
  lemma TrailingDotNeverCandidate(field: string, n: nat)
    requires field != "" && field[|field| - 1] == '.'
    requires 1 <= n <= |JavaSplit(field)|
    ensures |DotPrefix(field, n)| < |field|
    ensures DotPrefix(field, n) != field
  {
    var t := field[..|field| - 1];
    assert field == t + ['.'];
    RawSplitSnoc(t, '.');
    var raw := RawSplit(field);
    var comps := JavaSplit(field);
    JavaSplitPrefix(field);
    assert |comps| < |raw| by {
      assert raw[|raw| - 1] == "";
    }
    SliceOfPrefix(raw, comps, n);
    assert DotPrefix(field, n) == JoinDots(raw[..n]);
    JoinRawSplit(field);
    JoinPrefix(raw, n);
  }

  /** A dot after `"a"` opens an empty piece. */
  lemma RawSplitOneDot()
    ensures RawSplit("a.") == ["a", ""]
  {
    RawSplitNoDot("a");
    assert "a."[..1] == "a";
  }

  /** Splitting `"a.b"` keeps both pieces. */
  lemma RawSplitTwoPieces()
    ensures RawSplit("a.b") == ["a", "b"]
  {
    RawSplitOneDot();
    assert "a.b"[..2] == "a.";
    assert ["a", ""][..1] == ["a"] && "" + ['b'] == "b";
  }

  /** The raw pieces of `"a.b."` end with an empty piece. */
  lemma RawSplitTrailingDot()
    ensures RawSplit("a.b.") == ["a", "b", ""]
  {
    RawSplitTwoPieces();
    assert "a.b."[..3] == "a.b";
  }

  /** A trailing dot is dropped by Java's split: `"a.b."` gives `["a", "b"]`. */
  lemma JavaSplitTrailingDot()
    ensures JavaSplit("a.b.") == ["a", "b"]
  {
    RawSplitTrailingDot();
    assert "a.b."[3] == '.';
    assert StripTrailingEmpty(["a", "b"]) == ["a", "b"];
    assert ["a", "b", ""][..2] == ["a", "b"];
  }

  /** The empty string splits into one empty piece, a lone dot into no piece. */
  lemma JavaSplitDegenerate()
    ensures JavaSplit("") == [""]
    ensures JavaSplit(".") == []
  {
    assert "."[0] == '.' && "."[..0] == "";
    assert RawSplit(".") == ["", ""];
    assert ["", ""][..1] == [""] && [""][..0] == [];
    assert StripTrailingEmpty([]) == [];
    assert StripTrailingEmpty([""]) == [];
  }
}
