/** A player: an immutable name and the one-character symbol derived from it. */
module Players {

  /** Both fields are fixed at construction and never change. */
  datatype Player = Player(name: string, symbol: string) {

    /** What every constructed player satisfies. */
    predicate WellFormed() {
      name != [] && symbol == name[..1]
    }

    /** `getName`: the name, whose first character is the symbol. */
    function GetName(): (n: string)
      ensures WellFormed() ==> n != [] && n[..1] == GetSymbol()
    {
      name
    }

    /** `getSymbol`: one character, a prefix of the name. */
    function GetSymbol(): (s: string)
      ensures WellFormed() ==> |s| == 1 && s <= name
    {
      symbol
    }
  }

  /** The Java constructor; `substring(0, 1)` needs a non-empty name. */
  function NewPlayer(name: string): (p: Player)
    requires name != []
    ensures p.WellFormed()
    ensures p.name == name
    ensures |p.symbol| == 1 && p.symbol <= name
    ensures p.symbol[0] == name[0]
  {
    Player(name, name[..1])
  }

  /** `getName` returns the name passed to the constructor. */
  lemma NameRoundTrip(name: string)
    requires name != []
    ensures NewPlayer(name).GetName() == name
  {
  }

  /** `getSymbol` returns the symbol fixed at construction: the name's first character. */
  lemma SymbolIsFirstCharacter(name: string)
    requires name != []
    ensures NewPlayer(name).GetSymbol() == [name[0]]
  {
  }
}
