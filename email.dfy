/** The e-mail shape test shared by the sign-up and password-reset forms:
    `/\S+@\S+\.\S+/.test(email)`. The regular expression has no anchors, so it
    accepts any string that CONTAINS a match somewhere. */
module Email {
  import opened Text

  /** s[a..b) holds no white space. */
  predicate NonSpaceRun(s: string, a: int, b: int)
    requires 0 <= a <= b <= |s|
  {
    forall k :: a <= k < b ==> !IsSpace(s[k])
  }

  /** The regular expression matches s with its '@' at index i and its `\.` at
      index j: a non-space character just before i (the first `\S+` can always
      be shortened to it), s[i+1..j) non-empty and free of white space, and a
      non-space character just after j. */
  predicate MatchAt(s: string, i: int, j: int) {
    && 0 < i && i + 1 < j && j + 1 < |s|
    && s[i] == '@' && s[j] == '.'
    && !IsSpace(s[i - 1])
    && NonSpaceRun(s, i + 1, j)
    && !IsSpace(s[j + 1])
  }

  /** What the regular expression means: a match starts somewhere in s. */
  ghost predicate EmailShape(s: string) {
    exists i, j :: MatchAt(s, i, j)
  }

  /** Looks, from index j on, for the '.' of a match whose '@' came earlier and
      whose middle part s[i+1..j) has so far been free of white space. */
  function DotFrom(s: string, j: nat): bool
    requires j <= |s|
    decreases |s| - j
  {
    if j + 1 >= |s| then false
    else if IsSpace(s[j]) then false
    else if s[j] == '.' && !IsSpace(s[j + 1]) then true
    else DotFrom(s, j + 1)
  }

  /** Looks, from index i on, for an '@' that starts a match. */
  function AtFrom(s: string, i: nat): bool
    requires i <= |s|
    decreases |s| - i
  {
    if i + 3 >= |s| then false
    else (0 < i && s[i] == '@' && !IsSpace(s[i - 1]) && !IsSpace(s[i + 1]) && DotFrom(s, i + 2))
         || AtFrom(s, i + 1)
  }

  lemma {:induction false} DotFromCorrect(s: string, i: nat, j: nat)
    requires 0 < i && i + 1 < j <= |s| && s[i] == '@' && !IsSpace(s[i - 1])
    requires NonSpaceRun(s, i + 1, j)
    ensures DotFrom(s, j) <==> exists j' :: j <= j' && MatchAt(s, i, j')
    decreases |s| - j
  {
    if j + 1 >= |s| {
    } else if IsSpace(s[j]) {
      forall j' | j <= j' ensures !MatchAt(s, i, j') {
        if j < j' && j' + 1 < |s| { assert !NonSpaceRun(s, i + 1, j') by { assert i + 1 <= j < j'; } }
      }
    } else if s[j] == '.' && !IsSpace(s[j + 1]) {
      assert MatchAt(s, i, j);
    } else {
      assert NonSpaceRun(s, i + 1, j + 1);
      DotFromCorrect(s, i, j + 1);
      assert !MatchAt(s, i, j);
      if exists j' :: j <= j' && MatchAt(s, i, j') {
        var j' :| j <= j' && MatchAt(s, i, j');
        assert j + 1 <= j';
      }
    }
  }

  lemma {:induction false} AtFromCorrect(s: string, i: nat)
    requires i <= |s|
    ensures AtFrom(s, i) <==> exists i', j :: i <= i' && MatchAt(s, i', j)
    decreases |s| - i
  {
    if i + 3 >= |s| {
      forall i', j | i <= i' ensures !MatchAt(s, i', j) { }
    } else {
      AtFromCorrect(s, i + 1);
      var here := 0 < i && s[i] == '@' && !IsSpace(s[i - 1]) && !IsSpace(s[i + 1]);
      if here {
        assert NonSpaceRun(s, i + 1, i + 2);
        DotFromCorrect(s, i, i + 2);
        forall j | MatchAt(s, i, j) ensures i + 2 <= j { }
      } else {
        forall j | MatchAt(s, i, j) ensures !IsSpace(s[i + 1]) {
          assert NonSpaceRun(s, i + 1, j);
        }
      }
      if exists i', j :: i <= i' && MatchAt(s, i', j) {
        var i', j :| i <= i' && MatchAt(s, i', j);
        if i' == i {
          assert here;
        } else {
          assert i + 1 <= i';
        }
      }
    }
  }

  /** `validateEmail` in app/signup/page.tsx and app/forgot-password/page.tsx: a
      scanning matcher for the regular expression, equal to its meaning. */
  function ValidateEmail(s: string): (ok: bool)
    ensures ok <==> EmailShape(s)
  {
    AtFromCorrect(s, 0);
    AtFrom(s, 0)
  }

  /** The test is unanchored: text around an accepted string never makes it fail. */
  lemma ValidateEmailUnanchored(pre: string, s: string, post: string)
    requires ValidateEmail(s)
    ensures ValidateEmail(pre + s + post)
  {
    var i, j :| MatchAt(s, i, j);
    var t := pre + s + post;
    forall k | i + 1 + |pre| <= k < j + |pre| ensures !IsSpace(t[k]) {
      assert t[k] == s[k - |pre|];
    }
    assert MatchAt(t, i + |pre|, j + |pre|);
  }

  /** A match never contains white space, so white space can always be chosen
      to break one: an accepted string has an '@' with a non-space neighbour on
      each side. */
  lemma ValidateEmailNeedsAt(s: string)
    requires ValidateEmail(s)
    ensures exists i :: 0 < i < |s| - 1 && s[i] == '@' && !IsSpace(s[i - 1]) && !IsSpace(s[i + 1])
  {
    var i, j :| MatchAt(s, i, j);
    assert NonSpaceRun(s, i + 1, j);
    assert !IsSpace(s[i + 1]);
  }

  lemma ValidateEmailExamples()
    ensures ValidateEmail("a@b.c")
    ensures ValidateEmail("x a@b.c y")
    ensures ValidateEmail("a@b..")
    ensures !ValidateEmail("a@b")
    ensures !ValidateEmail("a@.b")
    ensures !ValidateEmail("@b.c")
    ensures !ValidateEmail("a @b.c")
    ensures !ValidateEmail("")
  {
    assert MatchAt("a@b.c", 1, 3);
    ValidateEmailUnanchored("x ", "a@b.c", " y");
    assert "x " + "a@b.c" + " y" == "x a@b.c y";
    assert MatchAt("a@b..", 1, 3);
    assert !AtFrom("a@b", 0);
    assert !AtFrom("a@.b", 0);
    assert !AtFrom("@b.c", 0);
    assert !AtFrom("a @b.c", 0);
  }
}
