/**
 * Decimal rendering of integers, as Python's `str(int)` and an f-string
 * print them: an optional minus sign followed by the digits of the magnitude,
 * without leading zeros.
 */
module Numerals {

  function DigitChar(d: nat): (c: char)
    requires d < 10
    ensures '0' <= c <= '9'
  {
    "0123456789"[d]
  }

  function DigitValue(c: char): nat
  {
    if '0' <= c <= '9' then c as int - '0' as int else 0
  }

  predicate IsDigits(s: string)
  {
    |s| > 0 && forall i :: 0 <= i < |s| ==> '0' <= s[i] <= '9'
  }

  /** The decimal digits of `n`, most significant first. */
  function Digits(n: nat): (s: string)
    ensures IsDigits(s)
    ensures |s| == 1 || s[0] != '0'
    ensures s[0] == '0' <==> n == 0
  {
    if n < 10 then [DigitChar(n)] else Digits(n / 10) + [DigitChar(n % 10)]
  }

  /** The value of a string of decimal digits, most significant first. */
  function ParseDigits(s: string): nat
  {
    if s == [] then 0 else ParseDigits(s[..|s| - 1]) * 10 + DigitValue(s[|s| - 1])
  }

  /** `str(i)`. */
  function IntToString(i: int): string
  {
    if i < 0 then "-" + Digits(-i) else Digits(i)
  }

  lemma DigitRoundTrip(d: nat)
    requires d < 10
    ensures DigitValue(DigitChar(d)) == d
  {
  }

  /** Reading the digits back gives the number. */
  lemma {:induction false} ParseDigitsOfDigits(n: nat)
    ensures ParseDigits(Digits(n)) == n
  {
    DigitRoundTrip(n % 10);
    if n >= 10 {
      var s := Digits(n);
      assert s[..|s| - 1] == Digits(n / 10);
      ParseDigitsOfDigits(n / 10);
    }
  }
}

/**
 * The values `Base/models.py` derives from a saved row: the subtotal of a
 * build line, and the text labels of stock movements and audit-log entries.
 * Decimal amounts are integer cents.
 */
module Ledger {
  import opened Wrappers
  import opened Numerals

  // ---------------------------------------------------------------------------
  // PCBuildItem.subtotal
  // ---------------------------------------------------------------------------

  /**
   * `quantity * price_at_time`. The quantity is a `PositiveIntegerField`
   * (zero allowed) and the price has two decimal places, so the product is a
   * whole number of cents.
   */
  function Subtotal(quantity: nat, priceAtTime: int): (total: int)
    ensures priceAtTime >= 0 ==> total >= 0
    ensures quantity == 0 ==> total == 0
    ensures quantity == 1 ==> total == priceAtTime
    ensures quantity >= 1 && priceAtTime >= 0 ==> total >= priceAtTime
  {
    quantity * priceAtTime
  }

  /** The sum of a list of unit prices. */
  function SumOfPrices(units: seq<int>): int
  {
    if units == [] then 0 else units[0] + SumOfPrices(units[1..])
  }

  /** The subtotal is the sum of one `price_at_time` per unit on the line. */
  lemma {:induction false} SubtotalIsSumOfUnits(quantity: nat, priceAtTime: int)
    ensures Subtotal(quantity, priceAtTime) == SumOfPrices(seq(quantity, _ => priceAtTime))
  {
    if quantity > 0 {
      var units := seq(quantity, _ => priceAtTime);
      assert units[0] == priceAtTime;
      assert units[1..] == seq(quantity - 1, _ => priceAtTime);
      SubtotalIsSumOfUnits(quantity - 1, priceAtTime);
      assert quantity * priceAtTime == priceAtTime + (quantity - 1) * priceAtTime;
    }
  }

  // ---------------------------------------------------------------------------
  // StockMovement.__str__
  // ---------------------------------------------------------------------------

  /**
   * The signed quantity in the label: `+` before a change that is zero or
   * positive, nothing before a negative one, whose own rendering starts with
   * the minus sign.
   */
  function SignedChange(change: int): string
  {
    (if change >= 0 then "+" else "") + IntToString(change)
  }

  /** Reads a signed quantity back: a sign character and digits. */
  function ParseSigned(s: string): int
  {
    if s == [] then 0
    else if s[0] == '+' then ParseDigits(s[1..])
    else if s[0] == '-' then -(ParseDigits(s[1..]) as int)
    else ParseDigits(s)
  }

  /**
   * The rendering of a change always starts with exactly one sign: `+` exactly
   * when the change is zero or positive, `-` exactly when it is negative; the
   * digits follow, and reading the text back gives the change.
   */
  lemma SignedChangeRoundTrip(change: int)
    ensures var s := SignedChange(change);
      && |s| >= 2
      && (s[0] == '+' <==> change >= 0)
      && (s[0] == '-' <==> change < 0)
      && IsDigits(s[1..])
      && ParseSigned(s) == change
  {
    var magnitude: nat := if change >= 0 then change else -change;
    var sign := if change >= 0 then '+' else '-';
    var s := [sign] + Digits(magnitude);
    assert SignedChange(change) == s;
    assert s[0] == sign && s[1..] == Digits(magnitude);
    ParseDigitsOfDigits(magnitude);
  }

  /** `f"{product.name} {sign}{quantity_change} ({reason})"`. */
  function MovementLabel(productName: string, change: int, reason: string): (text: string)
    ensures |text| >= |productName| + |reason| + 5
    ensures text[..|productName|] == productName && text[|productName|] == ' '
    ensures text[|productName| + 1] == '+' <==> change >= 0
    ensures text[|productName| + 1..|text| - |reason| - 3] == SignedChange(change)
    ensures text[|text| - |reason| - 3..] == " (" + reason + ")"
  {
    SignedChangeRoundTrip(change);
    var head, tail := productName + " " + SignedChange(change), " (" + reason + ")";
    assert (head + tail)[|head + tail| - |tail|..] == tail;
    assert (head + tail)[|productName| + 1..|head|] == SignedChange(change);
    head + tail
  }

  // ---------------------------------------------------------------------------
  // AuditLog.__str__
  // ---------------------------------------------------------------------------

  /** The acting account of an entry, when it still exists. */
  datatype User = User(username: string)

  /**
   * `self.user.username if self.user else (self.identifier or 'anonymous')`:
   * the account's username whenever there is an account (even an empty one),
   * otherwise the recorded identifier, otherwise "anonymous".
   */
  function Actor(user: Option<User>, identifier: string): (who: string)
    ensures user.Some? ==> who == user.value.username
    ensures user.None? ==> who != ""
    ensures user.None? && identifier != "" ==> who == identifier
    ensures user.None? && identifier == "" ==> who == "anonymous"
  {
    if user.Some? then user.value.username
    else if identifier != "" then identifier
    else "anonymous"
  }

  /** `f"{action} ({status}) - {who}"`. */
  function AuditLabel(action: string, status: string, user: Option<User>, identifier: string): (text: string)
    ensures |text| >= |action| + |Actor(user, identifier)|
    ensures text[..|action|] == action
    ensures text[|action|..|text| - |Actor(user, identifier)|] == " (" + status + ") - "
    ensures text[|text| - |Actor(user, identifier)|..] == Actor(user, identifier)
  {
    var who := Actor(user, identifier);
    var head, middle := action, " (" + status + ") - ";
    assert (head + middle + who)[|head|..|head| + |middle|] == middle;
    head + middle + who
  }
}
