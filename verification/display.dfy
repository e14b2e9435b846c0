/** Rendering rules shared by the table and the podium
    (components/LeaderboardTable.tsx, components/Podium.tsx). */
module Display {
  import opened Types
  import opened Text
  import Constants

  /** `FORMAT_CURRENCY`, an `Intl.NumberFormat` call: supplied by the caller. */
  type CurrencyFormatter = int -> string

  /** A name cell: the masked username, or the dimmed "---" placeholder. */
  datatype ShownName = Masked(text: string) | Placeholder

  /** The `hasName ? MASK_USERNAME(username) : ---` choice. */
  function NameCell(username: string): (n: ShownName)
    ensures n.Masked? <==> 0 < |username|
    ensures n.Masked? ==> n.text == username
  {
    if 0 < |username| then Masked(Constants.MaskUsername(username)) else Placeholder
  }

  /** `formatValue`: a plain integer string for Juice, currency otherwise. */
  function FormatValue(variant: Variant, value: int, currency: CurrencyFormatter): (s: string)
    ensures variant == Juice ==> s == IntToString(value)
    ensures variant == Betstrike ==> s == currency(value)
  {
    if variant == Juice then IntToString(value) else currency(value)
  }
}
