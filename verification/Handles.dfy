/** The syntax of member handles. */
module Handles {
  import opened Limits

  predicate IsAlphanumeric(c: char) {
    'A' <= c <= 'Z' || 'a' <= c <= 'z' || '0' <= c <= '9'
  }

  predicate IsHandleChar(c: char) {
    IsAlphanumeric(c) || c == '.' || c == '@' || c == '_' || c == '+' || c == '-'
  }

  /** The length is counted in bytes; every character that may occur takes one. */
  predicate IsMemberHandle(id: string) {
    0 < |id| <= MAX_MEMBER_HANDLE_LENGTH && IsAlphanumeric(id[0]) && forall i :: 0 <= i < |id| ==> IsHandleChar(id[i])
  }

  const UPPER := "ABCDEFGHIJKLMNOPQRSTUVWXYZ"
  const LOWER := "abcdefghijklmnopqrstuvwxyz"
  const DIGITS := "0123456789"

  predicate IsLetterOrDigit(c: char) {
    c in UPPER || c in LOWER || c in DIGITS
  }

  lemma LettersAndDigits(c: char)
    ensures IsAlphanumeric(c) <==> IsLetterOrDigit(c)
  {
    UpperCase(c);
    LowerCase(c);
    if '0' <= c <= '9' {
      assert DIGITS[c as int - '0' as int] == c;
    }
  }

  lemma UpperCase(c: char)
    ensures c in UPPER <==> 'A' <= c <= 'Z'
  {
    if 'A' <= c <= 'Z' {
      assert UPPER[c as int - 'A' as int] == c;
    }
  }

  lemma LowerCase(c: char)
    ensures c in LOWER <==> 'a' <= c <= 'z'
  {
    if 'a' <= c <= 'z' {
      assert LOWER[c as int - 'a' as int] == c;
    }
  }

  /** At most 128 of the characters that may occur, a letter or a digit first. */
  lemma HandlesExactly(id: string)
    ensures IsMemberHandle(id)
       <==> 1 <= |id| <= 128 && IsLetterOrDigit(id[0])
            && forall i :: 0 <= i < |id| ==> IsLetterOrDigit(id[i]) || id[i] in ".@_+-"
  {
    if id != "" {
      LettersAndDigits(id[0]);
    }
    forall i | 0 <= i < |id|
      ensures IsHandleChar(id[i]) <==> IsLetterOrDigit(id[i]) || id[i] in ".@_+-"
    {
      LettersAndDigits(id[i]);
    }
  }
}
