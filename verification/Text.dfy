/** The string helpers several components share, over ASCII text. */
module Text {

  predicate IsSpace(c: char) {
    c == ' ' || '\t' <= c <= '\r'
  }

  function TrimLeft(s: string): string {
    if s != [] && IsSpace(s[0]) then TrimLeft(s[1..]) else s
  }

  function TrimRight(s: string): string {
    if s != [] && IsSpace(s[|s| - 1]) then TrimRight(s[..|s| - 1]) else s
  }

  function TrimSpace(s: string): string {
    TrimRight(TrimLeft(s))
  }

  function LowerChar(c: char): char {
    if 'A' <= c <= 'Z' then c - 'A' + 'a' else c
  }

  function UpperChar(c: char): char {
    if 'a' <= c <= 'z' then c - 'a' + 'A' else c
  }

  function ToLower(s: string): string {
    seq(|s|, i requires 0 <= i < |s| => LowerChar(s[i]))
  }

  function ToUpper(s: string): string {
    seq(|s|, i requires 0 <= i < |s| => UpperChar(s[i]))
  }

  /** No blank at either end: what TrimSpace leaves and what it leaves alone. */
  predicate Trimmed(s: string) {
    s == [] || (!IsSpace(s[0]) && !IsSpace(s[|s| - 1]))
  }

  lemma {:induction false} TrimRightShape(s: string)
    ensures TrimRight(s) <= s
    ensures TrimRight(s) == [] || !IsSpace(TrimRight(s)[|TrimRight(s)| - 1])
    ensures forall i :: |TrimRight(s)| <= i < |s| ==> IsSpace(s[i])
  {
    if s != [] && IsSpace(s[|s| - 1]) {
      TrimRightShape(s[..|s| - 1]);
    }
  }

  lemma {:induction false} TrimLeftShape(s: string)
    ensures |TrimLeft(s)| <= |s| && TrimLeft(s) == s[|s| - |TrimLeft(s)|..]
    ensures TrimLeft(s) == [] || !IsSpace(TrimLeft(s)[0])
    ensures forall i :: 0 <= i < |s| - |TrimLeft(s)| ==> IsSpace(s[i])
  {
    if s != [] && IsSpace(s[0]) {
      TrimLeftShape(s[1..]);
      var n := |TrimLeft(s)|;
      assert s[1..][|s| - 1 - n..] == s[|s| - n..];
      forall i | 0 <= i < |s| - n
        ensures IsSpace(s[i])
      {
        if i > 0 {
          assert s[i] == s[1..][i - 1];
        }
      }
    }
  }

  /** Trimming yields trimmed text, changes nothing that is already trimmed, and so is idempotent. */
  lemma TrimSpaceShape(s: string)
    ensures Trimmed(TrimSpace(s))
    ensures Trimmed(s) ==> TrimSpace(s) == s
    ensures TrimSpace(TrimSpace(s)) == TrimSpace(s)
  {
    TrimLeftShape(s);
    TrimRightShape(TrimLeft(s));
    TrimmedIsFixed(TrimSpace(s));
    if Trimmed(s) {
      TrimmedIsFixed(s);
    }
  }

  lemma TrimmedIsFixed(s: string)
    requires Trimmed(s)
    ensures TrimSpace(s) == s
  {
  }

  /** Text trims to nothing exactly when it is blank throughout. */
  lemma TrimSpaceEmpty(s: string)
    ensures TrimSpace(s) == "" <==> forall i :: 0 <= i < |s| ==> IsSpace(s[i])
  {
    TrimLeftShape(s);
    TrimRightShape(TrimLeft(s));
    var left := TrimLeft(s);
    if left != [] {
      assert s[|s| - |left|] == left[0];
    }
  }

  lemma {:induction false} TrimLeftUpper(s: string)
    ensures TrimLeft(ToUpper(s)) == ToUpper(TrimLeft(s))
  {
    if s != [] && IsSpace(s[0]) {
      TrimLeftUpper(s[1..]);
      assert ToUpper(s)[1..] == ToUpper(s[1..]);
    }
  }

  lemma {:induction false} TrimRightUpper(s: string)
    ensures TrimRight(ToUpper(s)) == ToUpper(TrimRight(s))
  {
    if s != [] && IsSpace(s[|s| - 1]) {
      TrimRightUpper(s[..|s| - 1]);
      assert ToUpper(s)[..|s| - 1] == ToUpper(s[..|s| - 1]);
    }
  }

  /** It does not matter whether text is trimmed or changed to upper case first. */
  lemma TrimUpper(s: string)
    ensures TrimSpace(ToUpper(s)) == ToUpper(TrimSpace(s))
  {
    TrimLeftUpper(s);
    TrimRightUpper(TrimLeft(s));
  }

  /** Lower-casing and upper-casing never change which text is blank. */
  lemma UpperTrim(s: string)
    ensures Trimmed(s) ==> Trimmed(ToUpper(s))
    ensures ToUpper(ToUpper(s)) == ToUpper(s)
  {
  }
}
