/**
 * The player list of the engine as values: which player `removePlayer`
 * takes out, and the footer text that reports the number of players.
 */
module Roster {
  import opened Players
  import opened Decimal

  predicate HasPlayer(ps: seq<Player>, name: string) {
    exists j :: 0 <= j < |ps| && ps[j].name == name
  }

  /** The index of the first player called `name`, or `|ps|` when there is none. */
  function FindFirst(ps: seq<Player>, name: string): (i: nat)
    ensures i <= |ps|
    ensures i < |ps| <==> HasPlayer(ps, name)
    ensures i < |ps| ==> ps[i].name == name
    ensures forall j :: 0 <= j < i ==> ps[j].name != name
  {
    if ps == [] then 0
    else if ps[0].name == name then 0
    else
      var i' := FindFirst(ps[1..], name);
      assert forall j :: 1 <= j < |ps| ==> ps[j] == ps[1..][j - 1];
      1 + i'
  }

  /** The list after `removePlayer(name)`: the first player called `name` is gone. */
  function WithoutFirst(ps: seq<Player>, name: string): (rest: seq<Player>)
    ensures |rest| == if HasPlayer(ps, name) then |ps| - 1 else |ps|
    ensures !HasPlayer(ps, name) ==> rest == ps
  {
    var i := FindFirst(ps, name);
    if i < |ps| then ps[..i] + ps[i + 1..] else ps
  }

  /** The same removal written as a recursive walk over the list. */
  function RemoveFirstNamed(ps: seq<Player>, name: string): (rest: seq<Player>)
  {
    if ps == [] then []
    else if ps[0].name == name then ps[1..]
    else [ps[0]] + RemoveFirstNamed(ps[1..], name)
  }

  /** The index-based removal agrees with the recursive walk. */
  lemma {:induction false} WithoutFirstIsRemoveFirstNamed(ps: seq<Player>, name: string)
    ensures WithoutFirst(ps, name) == RemoveFirstNamed(ps, name)
  {
    if ps != [] && ps[0].name != name {
      WithoutFirstIsRemoveFirstNamed(ps[1..], name);
      var i' := FindFirst(ps[1..], name);
      assert FindFirst(ps, name) == 1 + i';
      if i' < |ps| - 1 {
        assert ps[..1 + i'] == [ps[0]] + ps[1..][..i'];
        assert ps[1 + i' + 1..] == ps[1..][i' + 1..];
      }
    }
  }

  /**
   * When some player is called `name`, exactly that one player is removed and
   * the others keep their relative order; otherwise the list is unchanged.
   */
  lemma RemovesExactlyOne(ps: seq<Player>, name: string)
    ensures !HasPlayer(ps, name) ==> WithoutFirst(ps, name) == ps
    ensures HasPlayer(ps, name) ==>
      var i := FindFirst(ps, name);
      |WithoutFirst(ps, name)| == |ps| - 1 &&
      (forall j :: 0 <= j < i ==> WithoutFirst(ps, name)[j] == ps[j]) &&
      (forall j :: i < j < |ps| ==> WithoutFirst(ps, name)[j - 1] == ps[j])
  {
    if HasPlayer(ps, name) {
      SliceOutShifts(ps, FindFirst(ps, name));
    }
  }

  lemma SliceOutShifts<T>(s: seq<T>, i: nat)
    requires i < |s|
    ensures |s[..i] + s[i + 1..]| == |s| - 1
    ensures forall j :: 0 <= j < i ==> (s[..i] + s[i + 1..])[j] == s[j]
    ensures forall j :: i < j < |s| ==> (s[..i] + s[i + 1..])[j - 1] == s[j]
  {
  }

  /** The players after a removal, together with the removed one, are the players before. */
  lemma RemovalIsPermutation(ps: seq<Player>, name: string)
    requires HasPlayer(ps, name)
    ensures multiset(WithoutFirst(ps, name)) + multiset{ps[FindFirst(ps, name)]} == multiset(ps)
  {
    var i := FindFirst(ps, name);
    SliceOutIsPermutation(ps, i);
  }

  lemma SliceOutIsPermutation<T>(s: seq<T>, i: nat)
    requires i < |s|
    ensures multiset(s[..i] + s[i + 1..]) + multiset{s[i]} == multiset(s)
  {
    calc {
      multiset(s);
      { assert s == s[..i] + ([s[i]] + s[i + 1..]); }
      multiset(s[..i]) + (multiset{s[i]} + multiset(s[i + 1..]));
    }
  }

  /** Every player left after a removal was in the list before. */
  lemma WithoutFirstKeepsMembers(ps: seq<Player>, name: string)
    ensures forall q :: q in WithoutFirst(ps, name) ==> q in ps
  {
    var i := FindFirst(ps, name);
    if i < |ps| {
      assert forall q :: q in ps[..i] ==> q in ps;
      assert forall q :: q in ps[i + 1..] ==> q in ps;
    }
  }

  /** Adding a new name and then removing it gives back the original list. */
  lemma {:induction false} AddThenRemove(ps: seq<Player>, p: Player)
    requires !HasPlayer(ps, p.name)
    ensures WithoutFirst(ps + [p], p.name) == ps
  {
    var qs := ps + [p];
    assert qs[|ps|].name == p.name;
    assert forall j :: 0 <= j < |ps| ==> qs[j] == ps[j];
    assert FindFirst(qs, p.name) == |ps|;
    assert qs[..|ps|] == ps;
  }

  /** A later addition does not change which player a removal takes out. */
  lemma AppendDoesNotAffectRemoval(ps: seq<Player>, name: string, p: Player)
    requires HasPlayer(ps, name)
    ensures WithoutFirst(ps + [p], name) == WithoutFirst(ps, name) + [p]
  {
    var qs := ps + [p];
    var i := FindFirst(ps, name);
    assert qs[i].name == name;
    assert forall j :: 0 <= j < i ==> qs[j] == ps[j];
    assert FindFirst(qs, name) == i;
    assert qs[..i] == ps[..i];
    assert qs[i + 1..] == ps[i + 1..] + [p];
  }

  const SingularSuffix: string := " player added."
  const PluralSuffix: string := " players added."

  /** The footer text shown after every addition or removal of a player. */
  function NumPlayersFooter(count: nat): (text: string)
    ensures DecimalString(count) <= text
    ensures text == "1 player added." <==> count == 1
    ensures count != 1 ==> EndsWith(text, PluralSuffix)
  {
    DecimalString(count) + (if count == 1 then SingularSuffix else PluralSuffix)
  }

  /** The number a footer text starts with. */
  function FooterCount(text: string): nat
  {
    ParseDecimal(text[..DigitPrefixLength(text)])
  }

  predicate EndsWith(s: string, suffix: string) {
    |suffix| <= |s| && s[|s| - |suffix|..] == suffix
  }

  /** The footer reports the player count, which can be read back from its text. */
  lemma FooterReportsCount(count: nat)
    ensures FooterCount(NumPlayersFooter(count)) == count
  {
    var digits := DecimalString(count);
    var suffix := if count == 1 then SingularSuffix else PluralSuffix;
    DigitPrefixOfConcat(digits, suffix);
    assert (digits + suffix)[..|digits|] == digits;
    ParseDecimalInverts(count);
  }

  /** The wording is singular exactly when there is one player, zero included in the plural. */
  lemma FooterWording(count: nat)
    ensures EndsWith(NumPlayersFooter(count), SingularSuffix) <==> count == 1
    ensures count != 1 ==> EndsWith(NumPlayersFooter(count), PluralSuffix)
    ensures NumPlayersFooter(1) == "1 player added."
  {
    var text := NumPlayersFooter(count);
    if count != 1 {
      assert text[|text| - |SingularSuffix|] == PluralSuffix[1];
      assert text[|text| - |SingularSuffix|..][0] != SingularSuffix[0];
    }
    assert DecimalString(1) == "1";
  }
}
