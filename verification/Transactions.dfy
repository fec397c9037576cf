/**
 The domain objects of the reporting pipeline. Amounts are integer cents, timestamps UTC.
 */
module Transactions {
  import opened Base
  import Calendar
  import Decimals

  datatype Category =
    | Unclassified | RetailPayment | WireTransfer | InternalTransfer | Refund | Fee | HighValue | Suspicious

  /** `str(category)`, which is also how reports sort. */
  function CategoryText(c: Category): string {
    match c
    case Unclassified => "unclassified"
    case RetailPayment => "retail_payment"
    case WireTransfer => "wire_transfer"
    case InternalTransfer => "internal_transfer"
    case Refund => "refund"
    case Fee => "fee"
    case HighValue => "high_value"
    case Suspicious => "suspicious"
  }

  /** `TransactionCategory(text)`: the category with this value, if there is one. */
  function CategoryNamed(text: string): Option<Category> {
    if text == "unclassified" then Some(Unclassified)
    else if text == "retail_payment" then Some(RetailPayment)
    else if text == "wire_transfer" then Some(WireTransfer)
    else if text == "internal_transfer" then Some(InternalTransfer)
    else if text == "refund" then Some(Refund)
    else if text == "fee" then Some(Fee)
    else if text == "high_value" then Some(HighValue)
    else if text == "suspicious" then Some(Suspicious)
    else None
  }

  /** A category is found again under its text, and under no other. */
  lemma CategoryRoundTrip(c: Category, text: string)
    ensures CategoryNamed(CategoryText(c)) == Some(c)
    ensures CategoryNamed(text) == Some(c) <==> text == CategoryText(c)
  {
    assert |"unclassified"| == 12 && |"retail_payment"| == 14 && |"wire_transfer"| == 13;
    assert |"internal_transfer"| == 17 && |"refund"| == 6 && |"fee"| == 3;
    assert |"high_value"| == 10 == |"suspicious"| && "high_value"[0] == 'h' && "suspicious"[0] == 's';
  }

  datatype Severity = Info | Warning | Critical

  datatype Transaction = Transaction(
    externalId: string, timestamp: Calendar.Timestamp, cents: int, currency: string, counterparty: string,
    hint: Option<string>)

  /** What the transactions table guarantees of a row. */
  ghost predicate Storable(t: Transaction) {
    t.timestamp.Valid() && Decimals.InColumn(t.cents)
  }

  ghost predicate AllStorable(ts: seq<Transaction>) {
    forall t :: t in ts ==> Storable(t)
  }

  datatype Violation = Violation(ruleId: string, severity: Severity, externalId: string)

  datatype Classified = Classified(transaction: Transaction, category: Category, ruleId: string)
}
