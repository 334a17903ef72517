/** A player of the dice game: a display name, a fixed seat in the turn order,
    and an inventory that the setter never lets go below zero. */
module Players {

  datatype Player = Player(name: string, turnOrder: nat, inventory: int)
  {
    /** The `Inventory` setter: a negative value is stored as 0. */
    function SetInventory(value: int): (p: Player)
      ensures p.name == name && p.turnOrder == turnOrder
      ensures p.inventory >= 0
      ensures value >= 0 ==> p.inventory == value
      ensures value < 0 ==> p.inventory == 0
    {
      Player(name, turnOrder, Clamp(value))
    }
  }

  /** max(value, 0), the normalisation the setter applies. */
  function Clamp(value: int): int
  {
    if value < 0 then 0 else value
  }

  /** A freshly seated player: the player at turn order `seat` is named
      "Player<seat+1>" and holds nothing. */
  function NewPlayer(seat: nat): (p: Player)
    ensures p.turnOrder == seat && p.inventory == 0
    ensures p.name == PlayerName(seat)
  {
    Player(PlayerName(seat), seat, 0)
  }

  /** The display name of the player at turn order `seat`. */
  function PlayerName(seat: nat): string
  {
    "Player" + DecimalString(seat + 1)
  }

  function Digit(d: nat): char
    requires d < 10
  {
    "0123456789"[d]
  }

  function DigitValue(c: char): nat
  {
    if '0' <= c <= '9' then (c as int - '0' as int) else 0
  }

  /** The decimal text of a natural number, most significant digit first. */
  function DecimalString(n: nat): (s: string)
    ensures |s| >= 1
    ensures forall i :: 0 <= i < |s| ==> '0' <= s[i] <= '9'
    ensures |s| > 1 ==> s[0] != '0'
  {
    if n < 10 then [Digit(n)] else DecimalString(n / 10) + [Digit(n % 10)]
  }

  /** Reads a string of decimal digits back as a number. */
  function ParseDecimal(s: string): nat
  {
    if s == [] then 0 else ParseDecimal(s[..|s| - 1]) * 10 + DigitValue(s[|s| - 1])
  }

  lemma DigitRoundTrip(d: nat)
    requires d < 10
    ensures DigitValue(Digit(d)) == d
  {
  }

  /** Decimal text is read back as the number it was written from. */
  lemma {:induction false} DecimalRoundTrip(n: nat)
    ensures ParseDecimal(DecimalString(n)) == n
  {
    var s := DecimalString(n);
    if n < 10 {
      DigitRoundTrip(n);
      assert s[..|s| - 1] == [];
    } else {
      DecimalRoundTrip(n / 10);
      DigitRoundTrip(n % 10);
      assert s[..|s| - 1] == DecimalString(n / 10);
    }
  }

  /** Different seats get different names: a name determines its seat. */
  lemma {:induction false} PlayerNameInjective(a: nat, b: nat)
    requires PlayerName(a) == PlayerName(b)
    ensures a == b
  {
    PrefixCancels("Player", DecimalString(a + 1), DecimalString(b + 1));
    DecimalInjective(a + 1, b + 1);
  }

  lemma DecimalInjective(m: nat, n: nat)
    requires DecimalString(m) == DecimalString(n)
    ensures m == n
  {
    DecimalRoundTrip(m);
    DecimalRoundTrip(n);
  }

  lemma PrefixCancels(p: string, x: string, y: string)
    requires p + x == p + y
    ensures x == y
  {
    assert x == (p + x)[|p|..];
    assert y == (p + y)[|p|..];
  }
}
