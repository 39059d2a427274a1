// The identifiers the API accepts for requests, keys and events.
module Identifiers {
  import opened Basics

  predicate IdentifierChar(c: char) {
    'a' <= c <= 'z' || 'A' <= c <= 'Z' || '0' <= c <= '9' || c == '-' || c == '_' || c == '.'
  }

  predicate ValidIdentifier(value: string, min: nat, max: nat) {
    min <= |value| <= max && forall i :: 0 <= i < |value| ==> IdentifierChar(value[i])
  }

  method CheckIdentifier(value: string, min: nat, max: nat) returns (ok: bool)
    ensures ok <==> ValidIdentifier(value, min, max)
  {
    if |value| < min || |value| > max {
      return false;
    }
    for i := 0 to |value|
      invariant forall k :: 0 <= k < i ==> IdentifierChar(value[k])
    {
      if !IdentifierChar(value[i]) {
        return false;
      }
    }
    return true;
  }

  const CHARACTERS := Range('a', 26) + Range('A', 26) + Range('0', 10) + "-_."

  lemma CharIsListed(c: char)
    ensures IdentifierChar(c) <==> c in CHARACTERS
  {
    if 'a' <= c <= 'z' { assert Range('a', 26)[(c - 'a') as int] == c; }
    if 'A' <= c <= 'Z' { assert Range('A', 26)[(c - 'A') as int] == c; }
    if '0' <= c <= '9' { assert Range('0', 10)[(c - '0') as int] == c; }
  }

  // Identifiers are made of letters, digits and three more characters, and of no others.
  lemma IdentifierChars(value: string, min: nat, max: nat)
    ensures ValidIdentifier(value, min, max) <==> min <= |value| <= max && forall c :: c in value ==> c in CHARACTERS
  {
    forall c ensures IdentifierChar(c) <==> c in CHARACTERS { CharIsListed(c); }
    assert forall i :: 0 <= i < |value| ==> value[i] in value;
  }
}
