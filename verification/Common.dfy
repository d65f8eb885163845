/** Shared result types. */
module Common {
  datatype Option<+T> = None | Some(value: T)

  datatype Result<+T, +E> = Ok(value: T) | Err(error: E)

  function Min(a: int, b: int): int {
    if a <= b then a else b
  }

  function Max(a: int, b: int): int {
    if a >= b then a else b
  }

  /** The whitespace that str.strip removes, restricted to these characters. */
  predicate Space(c: char) {
    c in {' ', '\t', '\n', '\r'}
  }

  function Strip(s: string): string
    decreases |s|
  {
    if s == [] then s
    else if Space(s[0]) then Strip(s[1..])
    else if Space(s[|s| - 1]) then Strip(s[..|s| - 1])
    else s
  }

  /** Strip drops white space at both ends and nothing else. */
  lemma {:induction false} StripMeaning(s: string) returns (front: nat, back: nat)
    ensures front <= back <= |s| && Strip(s) == s[front..back]
    ensures forall i :: 0 <= i < front || back <= i < |s| ==> Space(s[i])
    ensures front < back ==> !Space(s[front]) && !Space(s[back - 1])
    decreases |s|
  {
    hide Space;
    if s == [] {
      return 0, 0;
    }
    if Space(s[0]) {
      front, back := StripMeaning(s[1..]);
      assert s[1..][front..back] == s[front + 1..back + 1];
      forall i | 0 <= i < front + 1 || back + 1 <= i < |s| ensures Space(s[i]) {
        if i > 0 { assert s[i] == s[1..][i - 1]; }
      }
      front, back := front + 1, back + 1;
    } else if Space(s[|s| - 1]) {
      front, back := StripMeaning(s[..|s| - 1]);
      assert s[..|s| - 1][front..back] == s[front..back];
    } else {
      front, back := 0, |s|;
    }
  }

  lemma StripEmptyIff(s: string)
    ensures Strip(s) == "" <==> forall i :: 0 <= i < |s| ==> Space(s[i])
  {
    hide Space;
    var front, back := StripMeaning(s);
    if Strip(s) == "" {
      assert front == back;
    } else {
      assert !Space(s[front]);
    }
  }

  lemma {:induction false} StripTwice(s: string)
    ensures Strip(Strip(s)) == Strip(s)
    decreases |s|
  {
    if s != [] {
      if Space(s[0]) {
        StripTwice(s[1..]);
      } else if Space(s[|s| - 1]) {
        StripTwice(s[..|s| - 1]);
      }
    }
  }
}
