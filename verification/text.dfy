/** Text primitives the widgets and the chat responder share: the JavaScript
    whitespace class (used by `String.prototype.trim` and the regular-expression
    class `\s`), trimming, ASCII lower-casing, substring search and the
    category-slug transformation. */
module Text {

  /** The characters JavaScript counts as white space or line terminators:
      what `trim` strips and what `\s` matches. */
  predicate IsSpace(c: char) {
    || c == '\t' || c == '\n' || c == '\U{000B}' || c == '\U{000C}' || c == '\r' || c == ' '
    || c == '\U{00A0}' || c == '\U{1680}'
    || ('\U{2000}' <= c <= '\U{200A}')
    || c == '\U{2028}' || c == '\U{2029}' || c == '\U{202F}' || c == '\U{205F}'
    || c == '\U{3000}' || c == '\U{FEFF}'
  }

  predicate AllSpace(s: string) {
    forall i :: 0 <= i < |s| ==> IsSpace(s[i])
  }

  predicate NoSpace(s: string) {
    forall i :: 0 <= i < |s| ==> !IsSpace(s[i])
  }

  /** Drops leading white space. */
  function TrimStart(s: string): (r: string)
    ensures |r| <= |s| && r == s[|s| - |r|..]
    ensures forall i :: 0 <= i < |s| - |r| ==> IsSpace(s[i])
    ensures r == [] || !IsSpace(r[0])
  {
    if |s| > 0 && IsSpace(s[0]) then TrimStart(s[1..]) else s
  }

  /** Drops trailing white space. */
  function TrimEnd(s: string): (r: string)
    ensures |r| <= |s| && r == s[..|r|]
    ensures forall i :: |r| <= i < |s| ==> IsSpace(s[i])
    ensures r == [] || !IsSpace(r[|r| - 1])
  {
    if |s| > 0 && IsSpace(s[|s| - 1]) then TrimEnd(s[..|s| - 1]) else s
  }

  /** `r` is the slice of `s` starting at `k`, and everything of `s` outside
      that slice is white space. */
  predicate SpaceFramed(s: string, r: string, k: int) {
    && 0 <= k <= |s| - |r|
    && r == s[k..k + |r|]
    && (forall i :: 0 <= i < k ==> IsSpace(s[i]))
    && (forall i :: k + |r| <= i < |s| ==> IsSpace(s[i]))
  }

  /** `s.trim()`: the slice of `s` that remains once white space is removed
      from both ends. */
  function Trim(s: string): (r: string)
    ensures exists k :: SpaceFramed(s, r, k)
    ensures r == [] || (!IsSpace(r[0]) && !IsSpace(r[|r| - 1]))
    ensures r == [] <==> AllSpace(s)
  {
    var t := TrimStart(s);
    var r := TrimEnd(t);
    FramedByHalves(s, t, r);
    r
  }

  /** Removing leading white space and then trailing white space leaves a
      slice framed by white space, empty exactly when all of `s` is. */
  lemma FramedByHalves(s: string, t: string, r: string)
    requires |t| <= |s| && t == s[|s| - |t|..]
    requires forall i :: 0 <= i < |s| - |t| ==> IsSpace(s[i])
    requires |r| <= |t| && r == t[..|r|]
    requires forall i :: |r| <= i < |t| ==> IsSpace(t[i])
    requires r == [] || !IsSpace(r[0])
    ensures SpaceFramed(s, r, |s| - |t|)
    ensures r == [] <==> AllSpace(s)
  {
    var k := |s| - |t|;
    forall i | k + |r| <= i < |s| ensures IsSpace(s[i]) {
      assert s[i] == t[i - k];
    }
    assert r != [] ==> s[k] == r[0];
  }

  /** Trimming a trimmed string changes nothing. */
  lemma TrimIdempotent(s: string)
    ensures Trim(Trim(s)) == Trim(s)
  {
    var r := Trim(s);
    if r != [] {
      assert !IsSpace(r[0]);
      assert TrimStart(r) == r;
      assert TrimEnd(r) == r;
    }
  }

  /** ASCII upper-case letters map to lower case; every other character is
      left as it is. */
  function LowerChar(c: char): (r: char)
    ensures 'A' <= c <= 'Z' ==> 'a' <= r <= 'z' && r as int - c as int == 32
    ensures !('A' <= c <= 'Z') ==> r == c
  {
    if 'A' <= c <= 'Z' then (c as int + 32) as char else c
  }

  /** `s.toLowerCase()`, restricted to ASCII letters. */
  function Lower(s: string): (r: string)
    ensures |r| == |s|
    ensures forall i :: 0 <= i < |s| ==> r[i] == LowerChar(s[i])
  {
    seq(|s|, i requires 0 <= i < |s| => LowerChar(s[i]))
  }

  predicate IsLower(s: string) {
    forall i :: 0 <= i < |s| ==> !('A' <= s[i] <= 'Z')
  }

  /** Lower-casing produces no upper-case letter, so a second pass is a no-op. */
  lemma LowerIdempotent(s: string)
    ensures IsLower(Lower(s))
    ensures Lower(Lower(s)) == Lower(s)
  {
  }

  /** Lower-casing works character by character, so it distributes over
      concatenation. */
  lemma LowerConcat(a: string, b: string)
    ensures Lower(a + b) == Lower(a) + Lower(b)
  {
  }

  /** `sub` occurs in `s` starting at index `i`. */
  predicate OccursAt(s: string, sub: string, i: int)
    requires 0 <= i
  {
    i + |sub| <= |s| && s[i..i + |sub|] == sub
  }

  /** `s.includes(sub)`. */
  predicate Contains(s: string, sub: string) {
    exists i :: 0 <= i <= |s| && OccursAt(s, sub, i)
  }

  /** A string assembled around `sub` contains it right after the prefix. */
  lemma OccursInConcat(a: string, sub: string, b: string)
    ensures OccursAt(a + sub + b, sub, |a|) && Contains(a + sub + b, sub)
  {
    var s := a + sub + b;
    forall m | 0 <= m < |sub| ensures s[|a| + m] == sub[m] {
      assert s == a + (sub + b);
      assert (sub + b)[m] == sub[m];
    }
    assert s[|a|..|a| + |sub|] == sub;
    assert OccursAt(s, sub, |a|);
  }

  /** Every string contains the empty string. */
  lemma ContainsEmpty(s: string)
    ensures Contains(s, "")
  {
    assert OccursAt(s, "", 0);
  }

  /** The empty string contains only the empty string. */
  lemma OnlyEmptyInEmpty(sub: string)
    ensures Contains("", sub) ==> sub == ""
  {
  }

  /** An occurrence of `sub` places its first character in `s`: so a string
      lacking some character of `sub` cannot contain `sub`. */
  lemma ContainsHasChars(s: string, sub: string, j: int)
    requires 0 <= j < |sub|
    requires Contains(s, sub)
    ensures sub[j] in s
  {
    var i :| 0 <= i <= |s| && OccursAt(s, sub, i);
    assert s[i..i + |sub|][j] == s[i + j];
  }

  /** If `a` occurs in `b`, anything containing `b` contains `a`. */
  lemma ContainsTransitive(s: string, b: string, a: string)
    requires Contains(s, b) && Contains(b, a)
    ensures Contains(s, a)
  {
    var i :| 0 <= i <= |s| && OccursAt(s, b, i);
    var j :| 0 <= j <= |b| && OccursAt(b, a, j);
    forall m | 0 <= m < |a| ensures s[i + j + m] == a[m] {
      assert b[j + m] == a[m];
      assert s[i + j + m] == b[j + m];
    }
    assert OccursAt(s, a, i + j);
  }

  /** `field.toLowerCase().includes(query.toLowerCase())`: the
      case-insensitive substring search of the explorer and the phrasebook. */
  predicate MatchesQuery(field: string, query: string) {
    Contains(Lower(field), Lower(query))
  }

  /** The search ignores case on either side, the empty query matches every
      field, and an exact occurrence always matches. */
  lemma MatchesQueryCaseless(field: string, query: string)
    ensures MatchesQuery(field, "")
    ensures MatchesQuery(Lower(field), query) == MatchesQuery(field, query)
    ensures MatchesQuery(field, Lower(query)) == MatchesQuery(field, query)
    ensures Contains(field, query) ==> MatchesQuery(field, query)
  {
    ContainsEmpty(Lower(field));
    LowerIdempotent(field);
    LowerIdempotent(query);
    if Contains(field, query) {
      var i :| 0 <= i <= |field| && OccursAt(field, query, i);
      var lf, lq := Lower(field), Lower(query);
      forall m | 0 <= m < |lq| ensures lf[i + m] == lq[m] {
        assert field[i..i + |query|][m] == field[i + m];
      }
      assert lf[i..i + |lq|] == lq;
      assert OccursAt(lf, lq, i);
    }
  }

  /** Drops the leading run of white space. */
  function DropSpaces(s: string): (r: string)
    ensures |r| <= |s| && r == s[|s| - |r|..]
    ensures r == [] || !IsSpace(r[0])
    ensures |s| > 0 && IsSpace(s[0]) ==> |r| < |s|
  {
    if |s| > 0 && IsSpace(s[0]) then DropSpaces(s[1..]) else s
  }

  /** `s.replace(/\s+/g, "-")`: every maximal run of white space becomes a
      single hyphen. */
  function ReplaceSpaceRuns(s: string): (r: string)
    ensures NoSpace(r)
    ensures |r| <= |s|
    ensures NoSpace(s) ==> r == s
    decreases |s|
  {
    if s == [] then []
    else if IsSpace(s[0]) then "-" + ReplaceSpaceRuns(DropSpaces(s))
    else
      var rest := ReplaceSpaceRuns(s[1..]);
      assert NoSpace(s) ==> NoSpace(s[1..]) by {
        if NoSpace(s) {
          forall i | 0 <= i < |s[1..]| ensures !IsSpace(s[1..][i]) {
            assert s[1..][i] == s[i + 1];
          }
        }
      }
      [s[0]] + rest
  }

  /** A character that is not white space is copied as it is. */
  lemma ReplaceSpaceRunsCons(c: char, t: string)
    requires !IsSpace(c)
    ensures ReplaceSpaceRuns([c] + t) == [c] + ReplaceSpaceRuns(t)
  {
    assert ([c] + t)[1..] == t;
  }

  /** A stretch without white space is copied as it is. */
  lemma {:induction false} ReplaceSpaceRunsPrefix(a: string, b: string)
    requires NoSpace(a)
    ensures ReplaceSpaceRuns(a + b) == a + ReplaceSpaceRuns(b)
    decreases |a|
  {
    if a == [] {
      assert a + b == b;
    } else {
      var t := a[1..] + b;
      calc {
        ReplaceSpaceRuns(a + b);
        == { assert a + b == [a[0]] + t; }
        ReplaceSpaceRuns([a[0]] + t);
        == { ReplaceSpaceRunsCons(a[0], t); }
        [a[0]] + ReplaceSpaceRuns(t);
        == { NoSpaceTail(a); ReplaceSpaceRunsPrefix(a[1..], b); }
        [a[0]] + (a[1..] + ReplaceSpaceRuns(b));
        == { HeadThenTail(a, ReplaceSpaceRuns(b)); }
        a + ReplaceSpaceRuns(b);
      }
    }
  }

  lemma HeadThenTail(a: string, u: string)
    requires a != []
    ensures [a[0]] + (a[1..] + u) == a + u
  {
    assert a == [a[0]] + a[1..];
  }

  lemma NoSpaceTail(a: string)
    requires a != [] && NoSpace(a)
    ensures NoSpace(a[1..])
  {
    forall i | 0 <= i < |a[1..]| ensures !IsSpace(a[1..][i]) {
      assert a[1..][i] == a[i + 1];
    }
  }

  /** Dropping a whole run of white space leaves what follows it. */
  lemma {:induction false} DropSpacesRun(sp: string, t: string)
    requires AllSpace(sp)
    requires t == [] || !IsSpace(t[0])
    ensures DropSpaces(sp + t) == t
    decreases |sp|
  {
    if sp != [] {
      assert (sp + t)[1..] == sp[1..] + t;
      assert AllSpace(sp[1..]) by {
        forall i | 0 <= i < |sp[1..]| ensures IsSpace(sp[1..][i]) {
          assert sp[1..][i] == sp[i + 1];
        }
      }
      DropSpacesRun(sp[1..], t);
    }
  }

  /** A maximal run of white space, however long, becomes one hyphen. */
  lemma ReplaceSpaceRunsRun(sp: string, t: string)
    requires sp != [] && AllSpace(sp)
    requires t == [] || !IsSpace(t[0])
    ensures ReplaceSpaceRuns(sp + t) == "-" + ReplaceSpaceRuns(t)
  {
    assert (sp + t)[0] == sp[0];
    DropSpacesRun(sp, t);
  }

  /** Two words separated by white space: each word lower-cased, joined by a
      single hyphen. */
  lemma SlugOfTwoWords(w1: string, sp: string, w2: string)
    requires NoSpace(w1) && NoSpace(w2) && w2 != []
    requires sp != [] && AllSpace(sp)
    ensures Slug(w1 + sp + w2) == Lower(w1) + "-" + Lower(w2)
  {
    var l1, ls, l2 := Lower(w1), Lower(sp), Lower(w2);
    LowerKeepsSpaces(w1);
    LowerKeepsSpaces(sp);
    LowerKeepsSpaces(w2);
    calc {
      Slug(w1 + sp + w2);
      ReplaceSpaceRuns(Lower(w1 + sp + w2));
      == { LowerConcat(w1 + sp, w2); LowerConcat(w1, sp); assert l1 + ls + l2 == l1 + (ls + l2); }
      ReplaceSpaceRuns(l1 + (ls + l2));
      == { ReplaceSpaceRunsPrefix(l1, ls + l2); }
      l1 + ReplaceSpaceRuns(ls + l2);
      == { ReplaceSpaceRunsRun(ls, l2); }
      l1 + ("-" + l2);
    }
  }

  /** Lower-casing never turns a character into white space or back. */
  lemma LowerKeepsSpaces(s: string)
    ensures NoSpace(s) ==> NoSpace(Lower(s))
    ensures AllSpace(s) ==> AllSpace(Lower(s))
    ensures Lower(s) == [] <==> s == []
  {
  }

  /** The identifier derived from a category name: lower-cased, then each
      white-space run replaced by a hyphen. */
  function Slug(s: string): (r: string)
    ensures r == ReplaceSpaceRuns(Lower(s))
    ensures NoSpace(r) && IsLower(r)
    ensures |r| <= |s|
  {
    var l := Lower(s);
    var r := ReplaceSpaceRuns(l);
    assert IsLower(r) by { SpaceRunsKeepLower(l); }
    r
  }

  lemma {:induction false} SpaceRunsKeepLower(s: string)
    requires IsLower(s)
    ensures IsLower(ReplaceSpaceRuns(s))
    decreases |s|
  {
    if s == [] {
    } else if IsSpace(s[0]) {
      var d := DropSpaces(s);
      assert IsLower(d) by {
        forall i | 0 <= i < |d| ensures !('A' <= d[i] <= 'Z') {
          assert d[i] == s[|s| - |d| + i];
        }
      }
      SpaceRunsKeepLower(d);
    } else {
      assert IsLower(s[1..]) by {
        forall i | 0 <= i < |s[1..]| ensures !('A' <= s[1..][i] <= 'Z') {
          assert s[1..][i] == s[i + 1];
        }
      }
      SpaceRunsKeepLower(s[1..]);
    }
  }

  /** A slug is its own slug: the identifier of a category whose name is
      already an identifier is that identifier. */
  lemma SlugIdempotent(s: string)
    ensures Slug(Slug(s)) == Slug(s)
  {
    var r := Slug(s);
    assert Lower(r) == r;
  }
}
