/** The two string operations the classifier applies to a "Class::method()"
    specification: finding the first "::" (strpos) and stripping '(' and ')'
    from both ends of the method part (trim($m, '()')). */
module CallableStrings {
  import opened Wrappers

  /** A "::" starts at index j of s. */
  predicate DelimiterAt(s: string, j: int) {
    0 <= j && j + 1 < |s| && s[j] == ':' && s[j + 1] == ':'
  }

  /** strpos($s, '::'): the index of the first "::", if any. */
  function FindDelimiter(s: string): (r: Option<nat>)
    ensures r.Some? ==> DelimiterAt(s, r.value)
  {
    if |s| < 2 then None
    else if s[0] == ':' && s[1] == ':' then Some(0)
    else
      match FindDelimiter(s[1..])
      case None => None
      case Some(i) => Some(i + 1)
  }

  /** FindDelimiter finds the first "::", and finds nothing only when there
      is no "::" at all. */
  lemma {:induction false} FindDelimiterFirst(s: string)
    ensures FindDelimiter(s).Some? ==> forall j :: 0 <= j < FindDelimiter(s).value ==> !DelimiterAt(s, j)
    ensures FindDelimiter(s).None? ==> forall j :: 0 <= j < |s| ==> !DelimiterAt(s, j)
  {
    if |s| >= 2 && !(s[0] == ':' && s[1] == ':') {
      FindDelimiterFirst(s[1..]);
      assert forall j :: 1 <= j < |s| ==> (DelimiterAt(s, j) <==> DelimiterAt(s[1..], j - 1));
    }
  }

  /** strpos($s, '::') !== false */
  predicate HasDelimiter(s: string) {
    FindDelimiter(s).Some?
  }

  /** A string without a colon, such as a plain function name, has no "::". */
  lemma ColonFreeHasNoDelimiter(s: string)
    requires ':' !in s
    ensures !HasDelimiter(s)
  {
  }

  /** A string without ':' is split at the "::" that follows it. */
  lemma DelimiterAfterColonFree(prefix: string, rest: string)
    requires ':' !in prefix
    ensures FindDelimiter(prefix + "::" + rest) == Some(|prefix|)
  {
    var s := prefix + "::" + rest;
    assert DelimiterAt(s, |prefix|);
    FindDelimiterFirst(s);
    forall j | 0 <= j < |prefix|
      ensures !DelimiterAt(s, j)
    {
      assert s[j] == prefix[j];
    }
  }

  predicate IsParen(c: char) {
    c == '(' || c == ')'
  }

  /** ltrim($s, '()') */
  function TrimLeftParens(s: string): (r: string)
    ensures |r| <= |s| && r == s[|s| - |r|..]
    ensures r == [] || !IsParen(r[0])
  {
    if s != [] && IsParen(s[0]) then TrimLeftParens(s[1..]) else s
  }

  /** rtrim($s, '()') */
  function TrimRightParens(s: string): (r: string)
    ensures |r| <= |s| && r == s[..|r|]
    ensures r == [] || !IsParen(r[|r| - 1])
  {
    if s != [] && IsParen(s[|s| - 1]) then TrimRightParens(s[..|s| - 1]) else s
  }

  /** What ltrim removes is parentheses only. */
  lemma {:induction false} TrimLeftRemovesParens(s: string)
    ensures forall j :: 0 <= j < |s| - |TrimLeftParens(s)| ==> IsParen(s[j])
  {
    if s != [] && IsParen(s[0]) {
      TrimLeftRemovesParens(s[1..]);
    }
  }

  /** What rtrim removes is parentheses only. */
  lemma {:induction false} TrimRightRemovesParens(s: string)
    ensures forall j :: |TrimRightParens(s)| <= j < |s| ==> IsParen(s[j])
  {
    if s != [] && IsParen(s[|s| - 1]) {
      TrimRightRemovesParens(s[..|s| - 1]);
    }
  }

  /** trim($s, '()'): every '(' and ')' is removed from both ends, not just
      one trailing "()". */
  function TrimParens(s: string): (r: string)
    ensures r == [] || (!IsParen(r[0]) && !IsParen(r[|r| - 1]))
  {
    TrimRightParens(TrimLeftParens(s))
  }

  /** trim keeps one slice of its input and removes only parentheses
      around it. */
  lemma TrimParensTrims(s: string)
    ensures TrimmedAt(s, TrimParens(s), |s| - |TrimLeftParens(s)|)
  {
    TrimLeftRemovesParens(s);
    TrimKeepsSlice(s);
    TrimRemovesTrailingParens(s);
  }

  lemma TrimKeepsSlice(s: string)
    ensures var i := |s| - |TrimLeftParens(s)|;
      TrimParens(s) == s[i..i + |TrimParens(s)|]
  {
    var l := TrimLeftParens(s);
    var r := TrimRightParens(l);
    var i := |s| - |l|;
    calc {
      r;
      l[..|r|];
      s[i..][..|r|];
      s[i..i + |r|];
    }
  }

  lemma TrimRemovesTrailingParens(s: string)
    ensures var i := |s| - |TrimLeftParens(s)|;
      forall j :: i + |TrimParens(s)| <= j < |s| ==> IsParen(s[j])
  {
    var l := TrimLeftParens(s);
    var r := TrimRightParens(l);
    var i := |s| - |l|;
    assert TrimParens(s) == r && l == s[i..];
    TrimRightRemovesParens(l);
    forall j | i + |r| <= j < |s| ensures IsParen(s[j]) {
      assert |r| <= j - i < |l|;
      assert s[j] == l[j - i];
    }
  }

  /** r is the slice of s starting at i, and everything outside it is a
      parenthesis. */
  predicate TrimmedAt(s: string, r: string, i: int) {
    && 0 <= i && i + |r| <= |s|
    && r == s[i..i + |r|]
    && (forall j :: 0 <= j < i ==> IsParen(s[j]))
    && (forall j :: i + |r| <= j < |s| ==> IsParen(s[j]))
  }

  /** A method name followed by "()" trims back to the name. */
  lemma TrimDropsCallSuffix(m: string)
    requires m == [] || (!IsParen(m[0]) && !IsParen(m[|m| - 1]))
    ensures TrimParens(m + "()") == m
  {
    var s := m + "()";
    if m == [] {
      assert s[1..] == ")";
      assert TrimLeftParens(s) == TrimLeftParens(")") == TrimLeftParens("") == "";
    } else {
      assert TrimLeftParens(s) == s;
      assert s[..|s| - 1] == m + "(";
      assert (m + "(")[..|m|] == m;
      assert TrimRightParens(s) == TrimRightParens(m + "(") == TrimRightParens(m) == m;
    }
  }

  /** A name that is already free of parentheses at its ends is unchanged. */
  lemma TrimKeepsPlainName(m: string)
    requires m == [] || (!IsParen(m[0]) && !IsParen(m[|m| - 1]))
    ensures TrimParens(m) == m
  {
  }
}
