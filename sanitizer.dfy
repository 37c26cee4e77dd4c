/** `clean_output`: the character filter applied to every text before it is
    sent to the terminal emulator in the browser. */
module Sanitizer {

  const Tab: char := '\t'
  const Escape: char := '\U{1B}'
  const Delete: char := '\U{7F}'

  /** The filter's test, clause by clause as written: printable ASCII, line
      feed, carriage return, or any character from U+0080 on (the `!= DEL`
      clause is redundant there but kept). */
  predicate IsAllowed(c: char) {
    (' ' <= c <= '~') || c == '\n' || c == '\r' || (c >= '\U{80}' && c != Delete)
  }

  /** The same set described by what it removes: the C0 control characters
      other than line feed and carriage return, and DEL. Tab and ESC are C0
      controls, so they are removed too. */
  lemma AllowedIffNotControl(c: char)
    ensures IsAllowed(c) <==> !(c < ' ' && c != '\n' && c != '\r') && c != Delete
    ensures !IsAllowed(Tab) && !IsAllowed(Escape) && !IsAllowed(Delete)
  {
  }

  predicate AllAllowed(s: string) {
    forall i :: 0 <= i < |s| ==> IsAllowed(s[i])
  }

  /** `clean_output`: keeps the allowed characters of `s`, in order. */
  function CleanOutput(s: string): (r: string)
    ensures AllAllowed(r)
    ensures |r| <= |s|
  {
    if s == [] then []
    else if IsAllowed(s[0]) then [s[0]] + CleanOutput(s[1..])
    else CleanOutput(s[1..])
  }

  /** `r` occurs in `s` in order, possibly with gaps. */
  predicate IsSubsequence(r: string, s: string)
    decreases |s|
  {
    r == [] || (s != [] && if r[0] == s[0] then IsSubsequence(r[1..], s[1..]) else IsSubsequence(r, s[1..]))
  }

  /** The output is a subsequence of the input. */
  lemma {:induction false} CleanOutputIsSubsequence(s: string)
    ensures IsSubsequence(CleanOutput(s), s)
  {
    if s != [] {
      CleanOutputIsSubsequence(s[1..]);
    }
  }

  /** Each allowed character occurs as often in the output as in the input;
      every other character does not occur at all. Together with
      `CleanOutputIsSubsequence` this pins the output down: it is exactly the
      in-order subsequence of allowed characters. */
  lemma {:induction false} CleanOutputCounts(s: string, c: char)
    ensures multiset(CleanOutput(s))[c] == if IsAllowed(c) then multiset(s)[c] else 0
  {
    if s != [] {
      CleanOutputCounts(s[1..], c);
      assert s == [s[0]] + s[1..];
    }
  }

  /** Cleaning distributes over concatenation. */
  lemma {:induction false} CleanOutputAppend(a: string, b: string)
    ensures CleanOutput(a + b) == CleanOutput(a) + CleanOutput(b)
  {
    if a == [] {
      assert a + b == b;
    } else {
      assert (a + b)[0] == a[0] && (a + b)[1..] == a[1..] + b;
      CleanOutputAppend(a[1..], b);
    }
  }

  /** A text is left unchanged exactly when all of its characters are allowed. */
  lemma {:induction false} CleanOutputFixpoint(s: string)
    ensures CleanOutput(s) == s <==> AllAllowed(s)
  {
    if AllAllowed(s) && s != [] {
      assert AllAllowed(s[1..]);
      CleanOutputFixpoint(s[1..]);
    }
  }

  /** Cleaning twice is cleaning once. */
  lemma CleanOutputIdempotent(s: string)
    ensures CleanOutput(CleanOutput(s)) == CleanOutput(s)
  {
    CleanOutputFixpoint(CleanOutput(s));
  }

  /** A text that holds at least one allowed character does not clean to nothing. */
  lemma CleanOutputNonEmpty(s: string, i: nat)
    requires i < |s| && IsAllowed(s[i])
    ensures CleanOutput(s) != []
  {
    assert s[i] in multiset(s);
    CleanOutputCounts(s, s[i]);
  }
}
