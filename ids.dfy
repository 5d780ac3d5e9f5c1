/**
 * Readable, renderer-safe identifiers for states: the state's name with every
 * character outside [0-9A-Za-z_] either turned into '_' (space and '-') or
 * dropped, followed by '_' and a decimal disambiguator.
 */
module Ids {
  import opened Decimal

  /** The characters an identifier is made of. */
  predicate IsIdChar(c: char) {
    ('0' <= c <= '9') || ('a' <= c <= 'z') || ('A' <= c <= 'Z') || c == '_'
  }

  predicate AllIdChars(s: string) {
    forall i :: 0 <= i < |s| ==> IsIdChar(s[i])
  }

  /** What one character of the name contributes to the identifier. */
  function SanitizeChar(c: char): (r: string)
    ensures |r| <= 1 && AllIdChars(r)
    ensures IsIdChar(c) ==> r == [c]
    ensures (c == ' ' || c == '-') ==> r == "_"
    ensures !IsIdChar(c) && c != ' ' && c != '-' ==> r == ""
  {
    if IsIdChar(c) then [c] else if c == ' ' || c == '-' then "_" else ""
  }

  /** The name, character by character, through SanitizeChar. */
  function Sanitize(name: string): (r: string)
    ensures |r| <= |name|
    ensures AllIdChars(r)
  {
    if name == [] then [] else SanitizeChar(name[0]) + Sanitize(name[1..])
  }

  /** The identifier generateId builds for a name and a disambiguator. */
  function IdOf(name: string, k: nat): string {
    Sanitize(name) + "_" + DecimalString(k)
  }

  /** generateId: the character loop over the name, then '_' and the decimal index. */
  method GenerateId(name: string, index: nat) returns (id: string)
    ensures id == IdOf(name, index)
  {
    var sb := "";
    var i := 0;
    while i < |name|
      invariant 0 <= i <= |name|
      invariant sb == Sanitize(name[..i])
    {
      var ch := name[i];
      assert name[..i + 1] == name[..i] + [ch];
      SanitizeSnoc(name[..i], ch);
      if IsIdChar(ch) {
        sb := sb + [ch];
      } else if ch == ' ' || ch == '-' {
        sb := sb + "_";
      }
      i := i + 1;
    }
    assert name[..i] == name;
    sb := sb + "_";
    sb := sb + DecimalString(index);
    id := sb;
  }

  /** A name made only of identifier characters passes through unchanged. */
  lemma {:induction false} SanitizeKeepsIdChars(name: string)
    requires AllIdChars(name)
    ensures Sanitize(name) == name
  {
    if name != [] {
      SanitizeKeepsIdChars(name[1..]);
    }
  }

  /** Sanitize distributes over concatenation, so the loop can build it left to right. */
  lemma {:induction false} SanitizeAppend(a: string, b: string)
    ensures Sanitize(a + b) == Sanitize(a) + Sanitize(b)
  {
    if a == [] {
      assert a + b == b;
    } else {
      var ab := a + b;
      assert ab[0] == a[0] && ab[1..] == a[1..] + b;
      SanitizeAppend(a[1..], b);
      calc {
        Sanitize(ab);
        SanitizeChar(a[0]) + Sanitize(a[1..] + b);
        SanitizeChar(a[0]) + (Sanitize(a[1..]) + Sanitize(b));
      }
    }
  }

  /** Every identifier is non-empty, made of [0-9A-Za-z_], and ends in the digits of k after a '_'. */
  lemma IdOfShape(name: string, k: nat)
    ensures var id := IdOf(name, k);
      && AllIdChars(id)
      && |id| == |Sanitize(name)| + 1 + |DecimalString(k)|
      && id[|Sanitize(name)|] == '_'
      && id[|Sanitize(name)| + 1..] == DecimalString(k)
      && |id| >= 2
  {
    var id := IdOf(name, k);
    var d := DecimalString(k);
    forall i | 0 <= i < |id| ensures IsIdChar(id[i]) {
      if i > |Sanitize(name)| {
        assert id[i] == d[i - |Sanitize(name)| - 1];
      }
    }
  }

  /** Identifiers with different disambiguators differ, whatever the names. */
  lemma IdOfInjective(n1: string, k1: nat, n2: string, k2: nat)
    ensures IdOf(n1, k1) == IdOf(n2, k2) ==> k1 == k2
  {
    if IdOf(n1, k1) == IdOf(n2, k2) {
      var s := IdOf(n1, k1);
      var a1, a2 := Sanitize(n1), Sanitize(n2);
      var d1, d2 := DecimalString(k1), DecimalString(k2);
      IdOfShape(n1, k1);
      IdOfShape(n2, k2);
      assert |d1| == |d2|;
      assert d1 == s[|a1| + 1..] == d2;
      DecimalStringInjective(k1, k2);
    }
  }

  /** A generated identifier is never the name it was generated from. */
  lemma IdOfDiffersFromName(name: string, k: nat)
    ensures IdOf(name, k) != name
  {
    IdOfShape(name, k);
    if IdOf(name, k) == name {
      SanitizeKeepsIdChars(name);
      assert false;
    }
  }

  /** A space becomes '_': "A B" with 2 gives "A_B_2". */
  lemma IdOfExampleSpace()
    ensures IdOf("A B", 2) == "A_B_2"
  {
    SanitizeSpace();
    assert DecimalString(2) == "2";
  }

  /** Other characters are dropped: "B!" with 1 gives "B_1". */
  lemma IdOfExampleDropped()
    ensures IdOf("B!", 1) == "B_1"
  {
    SanitizeDropped();
    assert DecimalString(1) == "1";
  }

  /** A name with a space and a one-digit index: "State A" with 3 gives "State_A_3". */
  lemma IdOfExampleStateA()
    ensures IdOf("State A", 3) == "State_A_3"
  {
    SanitizeKeepsIdChars("State");
    SanitizeCons('A', "");
    SanitizeCons(' ', "A");
    SanitizeAppend("State", " A");
    assert "State" + " A" == "State A";
    assert DecimalString(3) == "3";
  }

  lemma SanitizeSpace()
    ensures Sanitize("A B") == "A_B"
  {
    SanitizeCons('B', "");
    SanitizeCons(' ', "B");
    SanitizeCons('A', " B");
  }

  lemma SanitizeDropped()
    ensures Sanitize("B!") == "B"
  {
    SanitizeCons('!', "");
    SanitizeCons('B', "!");
  }

  /** One more character appends what that character contributes. */
  lemma SanitizeSnoc(a: string, c: char)
    ensures Sanitize(a + [c]) == Sanitize(a) + SanitizeChar(c)
  {
    SanitizeAppend(a, [c]);
    SanitizeCons(c, "");
    assert [c] + "" == [c];
  }

  lemma SanitizeCons(c: char, s: string)
    ensures Sanitize([c] + s) == SanitizeChar(c) + Sanitize(s)
  {
    assert ([c] + s)[1..] == s;
  }
}
