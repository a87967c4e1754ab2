/**
  The tag rewrite of app.py:60-62: a case-insensitive regular-expression
  substitution of the bracketed word timestamp by the cachebuster macro,
  applied to each tag cell. The pattern is a fixed eleven-character literal,
  so the rewrite scans the cell from left to right and replaces every
  non-overlapping case-insensitive occurrence of the token.
 */
module Cachebuster {
  import opened Text

  /** The text the pattern matches, in lower case. */
  const Token := "[timestamp]"

  /** The replacement text. */
  const Replacement := "%%CACHEBUSTER%%"

  /** A case-insensitive occurrence of the token starts at index `i` of `s`. */
  predicate TokenAt(s: string, i: nat)
  {
    i + |Token| <= |s| && Lower(s[i..i + |Token|]) == Token
  }

  /** The pattern matches somewhere in `s`, ignoring case. */
  predicate HasToken(s: string)
  {
    exists i: nat :: i <= |s| && TokenAt(s, i)
  }

  /**
    The substitution: the leftmost match is replaced first and scanning resumes
    after it. The replacement is longer than the token, so no cell shrinks.
   */
  function Cachebust(s: string): (r: string)
    ensures |s| <= |r|
    decreases |s|
  {
    if s == [] then []
    else if TokenAt(s, 0) then
      Replacement + Cachebust(s[|Token|..])
    else [s[0]] + Cachebust(s[1..])
  }

  /** The first output character: '%' when the cell starts with the token, else the cell's own. */
  lemma FirstChar(s: string)
    requires s != []
    ensures Cachebust(s) != []
    ensures Cachebust(s)[0] == if TokenAt(s, 0) then '%' else s[0]
  {
  }

  /** A leading character that is not '[' is copied. */
  lemma CopiesLeadingChar(c: char, t: string)
    requires c != '['
    ensures Cachebust([c] + t) == [c] + Cachebust(t)
  {
    var s := [c] + t;
    if |s| >= |Token| {
      assert Lower(s[0..|Token|])[0] == LowerChar(c);
    }
    assert s[1..] == t;
  }

  /** A leading token is replaced. */
  lemma ReplacesLeadingToken(w: string, t: string)
    requires |w| == |Token| && Lower(w) == Token
    ensures Cachebust(w + t) == Replacement + Cachebust(t)
  {
    var s := w + t;
    assert s[0..|Token|] == w;
    assert s[|Token|..] == t;
  }

  /**
    Up to its first '%', the rewritten text is the input itself: a '%' is the
    first character of every replacement.
   */
  lemma {:induction false} PrefixBeforePercent(s: string, n: nat)
    requires n <= |Cachebust(s)|
    requires forall k :: 0 <= k < n ==> Cachebust(s)[k] != '%'
    ensures n <= |s| && Cachebust(s)[..n] == s[..n]
    decreases |s|
  {
    if s != [] {
      FirstChar(s);
    }
    if s == [] || n == 0 || TokenAt(s, 0) {
    } else {
      var rest := Cachebust(s[1..]);
      assert Cachebust(s) == [s[0]] + rest;
      forall k | 0 <= k < n - 1 ensures rest[k] != '%' {
        assert rest[k] == Cachebust(s)[k + 1];
      }
      PrefixBeforePercent(s[1..], n - 1);
      assert Cachebust(s)[..n] == [s[0]] + rest[..n - 1];
      assert s[..n] == [s[0]] + s[1..][..n - 1];
    }
  }

  /** Prepending text that holds no '[' cannot create a token. */
  lemma NoTokenAfterBracketFreePrefix(p: string, t: string)
    requires forall k :: 0 <= k < |p| ==> p[k] != '['
    requires !HasToken(t)
    ensures !HasToken(p + t)
  {
    var u := p + t;
    forall i: nat | i <= |u| ensures !TokenAt(u, i) {
      if i + |Token| <= |u| {
        if i < |p| {
          assert Lower(u[i..i + |Token|])[0] == LowerChar(p[i]) != Token[0];
        } else {
          assert u[i..i + |Token|] == (p + t)[i..i + |Token|] == t[i - |p|..i - |p| + |Token|];
          assert !TokenAt(t, i - |p|);
        }
      }
    }
  }

  /** Past the first character, a token in `s` is a token in its tail one place earlier. */
  lemma TokenAtInTail(s: string, i: nat)
    requires 1 <= i && s != []
    ensures TokenAt(s, i) <==> TokenAt(s[1..], i - 1)
  {
    if i + |Token| <= |s| {
      assert s[1..][i - 1..i - 1 + |Token|] == s[i..i + |Token|];
    }
  }

  /** An occurrence in `rest` is an occurrence one place later once a character is put in front. */
  lemma OccursAfterFirst(c: char, rest: string, sub: string, j: nat)
    requires OccursAt(rest, sub, j)
    ensures OccursAt([c] + rest, sub, j + 1)
  {
    assert ([c] + rest)[j + 1..j + 1 + |sub|] == rest[j..j + |sub|];
  }

  /** When a cell does not start with the token, neither does its rewrite. */
  lemma NoLeadingTokenAfterCopy(s: string)
    requires s != [] && !TokenAt(s, 0)
    ensures !TokenAt([s[0]] + Cachebust(s[1..]), 0)
  {
    var rest := Cachebust(s[1..]);
    var r := [s[0]] + rest;
    if |r| >= |Token| {
      var w := r[..|Token|];
      if k :| 0 <= k < |Token| - 1 && rest[k] == '%' {
        assert Lower(w)[k + 1] == '%' != Token[k + 1];
      } else {
        PrefixBeforePercent(s[1..], |Token| - 1);
        assert w == [s[0]] + rest[..|Token| - 1];
        assert w == s[..|Token|];
      }
    }
  }

  /** No residue: the rewritten text holds no case-insensitive `[timestamp]`. */
  lemma {:induction false} NoTokenLeft(s: string)
    ensures !HasToken(Cachebust(s))
    decreases |s|
  {
    if s == [] {
    } else if TokenAt(s, 0) {
      NoTokenLeft(s[|Token|..]);
      NoTokenAfterBracketFreePrefix(Replacement, Cachebust(s[|Token|..]));
    } else {
      var rest := Cachebust(s[1..]);
      var r := [s[0]] + rest;
      assert Cachebust(s) == r;
      assert r[1..] == rest;
      NoTokenLeft(s[1..]);
      NoLeadingTokenAfterCopy(s);
      forall i: nat | 1 <= i <= |r| ensures !TokenAt(r, i) {
        TokenAtInTail(r, i);
      }
    }
  }

  /** A cell without the token is returned unchanged, and only such a cell is. */
  lemma {:induction false} UnchangedIffNoToken(s: string)
    ensures Cachebust(s) == s <==> !HasToken(s)
    decreases |s|
  {
    if !HasToken(s) {
      if s != [] {
        assert !TokenAt(s, 0);
        forall i: nat | i <= |s[1..]| ensures !TokenAt(s[1..], i) {
          TokenAtInTail(s, i + 1);
        }
        UnchangedIffNoToken(s[1..]);
      }
    } else {
      NoTokenLeft(s);
    }
  }

  /** Rewriting an already rewritten cell changes nothing. */
  lemma Idempotent(s: string)
    ensures Cachebust(Cachebust(s)) == Cachebust(s)
  {
    NoTokenLeft(s);
    UnchangedIffNoToken(Cachebust(s));
  }

  /** A cell that holds the token comes out holding the replacement. */
  lemma {:induction false} TokenYieldsReplacement(s: string)
    requires HasToken(s)
    ensures Contains(Cachebust(s), Replacement)
    decreases |s|
  {
    if TokenAt(s, 0) {
      var rest := Cachebust(s[|Token|..]);
      assert Cachebust(s) == Replacement + rest;
      assert (Replacement + rest)[0..|Replacement|] == Replacement;
      assert OccursAt(Cachebust(s), Replacement, 0);
    } else {
      var i: nat :| i <= |s| && TokenAt(s, i);
      TokenAtInTail(s, i);
      TokenYieldsReplacement(s[1..]);
      var rest := Cachebust(s[1..]);
      var j: nat :| j <= |rest| && OccursAt(rest, Replacement, j);
      OccursAfterFirst(s[0], rest, Replacement, j);
      assert Cachebust(s) == [s[0]] + rest;
    }
  }

  /**
    Text that holds no token, followed by a token, does not start with a token:
    a window that starts inside `a` and reaches into `w` ends on a character of
    `w` other than its closing ']'.
   */
  lemma NoTokenStartsBeforeToken(a: string, w: string, b: string)
    requires a != [] && !HasToken(a)
    requires |w| == |Token| && Lower(w) == Token
    ensures !TokenAt(a + w + b, 0)
  {
    var s := a + w + b;
    if |a| >= |Token| {
      assert s[0..|Token|] == a[0..|Token|];
      assert !TokenAt(a, 0);
    } else {
      var k := |Token| - 1 - |a|;
      assert s[|Token| - 1] == w[k];
      assert Lower(s[0..|Token|])[|Token| - 1] == LowerChar(w[k]) == Lower(w)[k] == Token[k] != ']';
    }
  }

  /** A cell that does not start with the token keeps its first character. */
  lemma CopiesFirstChar(s: string)
    requires s != [] && !TokenAt(s, 0)
    ensures Cachebust(s) == [s[0]] + Cachebust(s[1..])
  {
  }

  /** The tail of token-free text is token-free. */
  lemma NoTokenInTail(a: string)
    requires a != [] && !HasToken(a)
    ensures !HasToken(a[1..])
  {
    forall i: nat | i <= |a[1..]| ensures !TokenAt(a[1..], i) {
      TokenAtInTail(a, i + 1);
    }
  }

  /** One step of the in-place replacement: the first character of the text before the match is copied. */
  lemma ReplacedInPlaceStep(a: string, w: string, b: string)
    requires a != [] && !TokenAt(a + w + b, 0)
    requires Cachebust(a[1..] + w + b) == a[1..] + (Replacement + Cachebust(b))
    ensures Cachebust(a + w + b) == a + (Replacement + Cachebust(b))
  {
    var s := a + w + b;
    var tail := a[1..];
    var after := Replacement + Cachebust(b);
    CopiesFirstChar(s);
    assert s[0] == a[0] && s[1..] == tail + w + b;
    assert Cachebust(s[1..]) == tail + after;
    SplitFirst(a, after);
  }

  /** Text put in front of `u` is its first character followed by the rest put in front of `u`. */
  lemma SplitFirst(a: string, u: string)
    requires a != []
    ensures a + u == [a[0]] + (a[1..] + u)
  {
    assert a == [a[0]] + a[1..];
  }

  /**
    A match is replaced where it stands: the token-free text before it is kept,
    the token becomes the replacement, and the rewrite goes on after it.
   */
  lemma {:induction false} TokenReplacedInPlace(a: string, w: string, b: string)
    requires !HasToken(a)
    requires |w| == |Token| && Lower(w) == Token
    ensures Cachebust(a + w + b) == a + (Replacement + Cachebust(b))
    decreases |a|
  {
    if a == [] {
      assert a + w + b == w + b;
      ReplacesLeadingToken(w, b);
      assert a + (Replacement + Cachebust(b)) == Replacement + Cachebust(b);
    } else {
      NoTokenStartsBeforeToken(a, w, b);
      NoTokenInTail(a);
      TokenReplacedInPlace(a[1..], w, b);
      ReplacedInPlaceStep(a, w, b);
    }
  }

  /** Text free of '[' in front of a cell is copied verbatim. */
  lemma {:induction false} BracketFreePrefixCopied(p: string, t: string)
    requires '[' !in p
    ensures Cachebust(p + t) == p + Cachebust(t)
    decreases |p|
  {
    if p == [] {
      assert p + t == t;
    } else {
      var q := p[1..];
      assert p + t == [p[0]] + (q + t);
      CopiesLeadingChar(p[0], q + t);
      BracketFreePrefixCopied(q, t);
      assert p == [p[0]] + q;
    }
  }

  /** A cell without '[' holds no match and comes back unchanged. */
  lemma BracketFreeCellKept(s: string)
    requires '[' !in s
    ensures Cachebust(s) == s
  {
    BracketFreePrefixCopied(s, []);
    assert s + [] == s;
  }

  /** Mixed-case spellings of the token match. */
  lemma MixedCaseToken()
    ensures Lower("[TimeStamp]") == Token
  {
    assert LowerChar('T') == 't' && LowerChar('S') == 's';
  }

  /** Only the token is rewritten; the text around it is kept. */
  lemma TokenCellExample()
    ensures Cachebust("cb=[TimeStamp]") == "cb=" + Replacement
  {
    MixedCaseToken();
    ReplacesLeadingToken("[TimeStamp]", []);
    assert "[TimeStamp]" + [] == "[TimeStamp]";
    assert Cachebust([]) == [];
    assert Cachebust("[TimeStamp]") == Replacement;
    BracketFreePrefixCopied("cb=", "[TimeStamp]");
    assert "cb=" + "[TimeStamp]" == "cb=[TimeStamp]";
  }
}
