/** How the home list shows a customer's balance (src/App.js, lines 121-122):
    a non-negative balance as the amount owed, in red; a negative one as its
    magnitude tagged "Adv" (an advance held for the customer), in green. */
module Display {
  import opened Text

  /** The CSS colour class of the badge: 'text-red' or 'text-green'. */
  datatype Tone = Red | Green

  datatype Badge = Badge(tone: Tone, caption: string)

  const Rupee: char := '\U{20B9}'
  const AdvanceTag: string := " Adv"

  /** The balance badge of one customer card. */
  function BalanceBadge(bal: int): (b: Badge)
    ensures b.tone == Red <==> bal >= 0
    ensures |b.caption| >= 2 && b.caption[0] == Rupee
    ensures '-' !in b.caption
    ensures HasAdvanceTag(b.caption) <==> bal < 0
    ensures ShownAmount(b.caption) == if bal >= 0 then bal else -bal
  {
    if bal >= 0 then
      var caption := [Rupee] + Decimal(bal);
      DecimalRoundTrip(bal);
      assert caption[1..] == Decimal(bal);
      Badge(Red, caption)
    else
      var digits := Decimal(-bal);
      var caption := [Rupee] + digits + AdvanceTag;
      DecimalRoundTrip(-bal);
      assert caption[1..|caption| - 4] == digits;
      Badge(Green, caption)
  }

  /** Whether a caption ends with the advance tag after a non-empty amount. */
  predicate HasAdvanceTag(caption: string)
  {
    |caption| >= 6 && caption[|caption| - 4..] == AdvanceTag
  }

  /** The digits of a caption: what lies between the rupee sign and the tag. */
  function AmountText(caption: string): string
  {
    if HasAdvanceTag(caption) then caption[1..|caption| - 4]
    else if caption == [] then []
    else caption[1..]
  }

  /** The magnitude a caption shows, 0 when its digits cannot be read. */
  function ShownAmount(caption: string): nat
  {
    var digits := AmountText(caption);
    if forall i :: 0 <= i < |digits| ==> IsDigit(digits[i]) then DecimalValue(digits) else 0
  }

  /** Reads a badge back as a signed balance: the shown amount, negated when
      the caption carries the advance tag. */
  function ReadBadge(b: Badge): int
  {
    if HasAdvanceTag(b.caption) then 0 - ShownAmount(b.caption) as int else ShownAmount(b.caption)
  }

  /** The badge loses nothing: reading it back gives the balance, so no two
      balances share a badge, and colour and tag always agree. */
  lemma BadgeRoundTrip(bal: int)
    ensures ReadBadge(BalanceBadge(bal)) == bal
    ensures BalanceBadge(bal).tone == Green <==> HasAdvanceTag(BalanceBadge(bal).caption)
  {
  }

  /** A zero balance shows as "₹0" in red, as an amount to receive. */
  lemma ZeroBadge()
    ensures BalanceBadge(0) == Badge(Red, [Rupee, '0'])
  {
  }
}
