/** UUID text as the service validates it and as uuid.Parse(...).String() normalises it. */
module Uuids {

  const UUID_LENGTH := 36

  predicate IsLowerHex(c: char) {
    '0' <= c <= '9' || 'a' <= c <= 'f'
  }

  predicate IsHex(c: char) {
    IsLowerHex(c) || 'A' <= c <= 'F'
  }

  predicate IsDash(i: int) {
    i == 8 || i == 13 || i == 18 || i == 23
  }

  /** The service's uuidPattern: hexadecimal of either case, versions 1 to 5, RFC 4122 variant. */
  predicate IsUuid(s: string) {
    && |s| == UUID_LENGTH
    && (forall i | 0 <= i < UUID_LENGTH :: if IsDash(i) then s[i] == '-' else IsHex(s[i]))
    && '1' <= s[14] <= '5'
    && s[19] in {'8', '9', 'a', 'b', 'A', 'B'}
  }

  function LowerChar(c: char): char {
    if 'A' <= c <= 'Z' then c - 'A' + 'a' else c
  }

  /** The lower-case form in which the server stores and prints a UUID. */
  function Lower(s: string): string {
    seq(|s|, i requires 0 <= i < |s| => LowerChar(s[i]))
  }

  /** The client's canonicalUUIDPattern: a UUID already in lower case. */
  predicate IsCanonicalUuid(s: string) {
    IsUuid(s) && Lower(s) == s
  }

  lemma LowerIsCanonical(s: string)
    requires IsUuid(s)
    ensures IsCanonicalUuid(Lower(s))
  {
    var t := Lower(s);
    assert |t| == UUID_LENGTH;
    forall i | 0 <= i < UUID_LENGTH
      ensures if IsDash(i) then t[i] == '-' else IsHex(t[i])
      ensures LowerChar(t[i]) == t[i]
    {
      assert t[i] == LowerChar(s[i]);
    }
    assert t[14] == LowerChar(s[14]) && t[19] == LowerChar(s[19]);
    assert Lower(t) == t;
  }
}
