/** The directives the booking core reads. Exact rationals are modelled by reals. */
module Ast {

  /** Calendar days since the zero time; 0 is the zero time, carried by undated directives. */
  type Date = nat

  datatype Option<+T> = None | Some(value: T)

  datatype Meta = Meta(date: Date, file: string, line: nat)

  /** A place of which only the day matters. */
  function Day(d: Date): Meta {
    Meta(d, "", 0)
  }

  datatype Key = Key(account: string, commodity: string)

  datatype Amount = Amount(number: real, commodity: string)

  /** An amount as parsed: the number may be missing. */
  datatype RawAmount = RawAmount(number: Option<real>, commodity: string)

  datatype CostSpec = CostSpec(number: Option<real>, commodity: string, empty: bool)

  datatype PriceSpec = PriceSpec(number: Option<real>, commodity: string, total: bool)

  /** One transaction line; units None is the residual leg. closing is its closing metadata. */
  datatype Posting = Posting(
    account: string,
    units: Option<RawAmount>,
    cost: Option<CostSpec>,
    price: Option<PriceSpec>,
    closing: bool)

  datatype InterestRate = InterestRate(alpha: real, indicator: string, plusDaily: Option<real>)

  datatype Directive =
    | Open(meta: Meta, account: string, currencies: seq<string>, interest: Option<InterestRate>)
    | Close(meta: Meta, account: string)
    | Transaction(meta: Meta, flag: string, postings: seq<Posting>)
    | Balance(meta: Meta, account: string, amount: Amount)
    | Pad(meta: Meta, account: string, fromAccount: string)
    | Price(meta: Meta, currency: string, amount: Amount)
    | Document(meta: Meta)
      // notes, events, queries, options, commodities, customs and unknown directives
    | Other(meta: Meta)

  function Abs(x: real): (r: real)
    ensures r >= 0.0 && (r == x || r == -x)
  {
    if x < 0.0 then -x else x
  }

  /** The characters a blank commodity may consist of (Unicode White_Space). */
  predicate IsSpace(c: char) {
    '\t' <= c <= '\r' || c in [' ', '\U{85}', '\U{A0}', '\U{1680}', '\U{2028}', '\U{2029}', '\U{202F}', '\U{205F}',
        '\U{3000}']
    || '\U{2000}' <= c <= '\U{200A}'
  }

  predicate Blank(s: string) {
    forall i | 0 <= i < |s| :: IsSpace(s[i])
  }
}
