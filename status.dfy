/** Order status strings. The order and payment controllers write and compare the
    lower-case names ("pending", "paid", ...), while the administrator's status update
    upper-cases its input and stores it that way. */
module Status {
  import opened Records

  predicate IsLower(c: char)
  {
    'a' <= c <= 'z'
  }

  function UpperChar(c: char): char
  {
    if IsLower(c) then (c as int - 32) as char else c
  }

  /** PHP's `strtoupper`: ASCII letters are upper-cased, every other character is kept. */
  function ToUpper(s: string): (r: string)
    ensures |r| == |s|
    ensures forall i :: 0 <= i < |r| ==> !IsLower(r[i])
    ensures forall i :: 0 <= i < |r| ==> r[i] == s[i] || (IsLower(s[i]) && r[i] as int == s[i] as int - 32)
  {
    seq(|s|, i requires 0 <= i < |s| => UpperChar(s[i]))
  }

  /** The statuses an administrator may set, after upper-casing. */
  const AdminStatuses: seq<string> := ["PENDING", "PAID", "PROCESSING", "SHIPPED", "DELIVERED", "CANCELLED"]

  /** The lower-case statuses the rest of the application writes and compares. */
  const OrderStatuses: seq<string> := [Pending, Paid, Processing, Shipped, Delivered, Cancelled]

  /** The statuses counted as "sold" when a cancellation decides whether to lower sales. */
  predicate Counted(status: string)
  {
    status == Paid || status == Processing || status == Shipped || status == Delivered
  }

  /** A string without lower-case letters is its own upper-case form. */
  lemma UpperKeepsUpper(s: string)
    ensures (forall i :: 0 <= i < |s| ==> !IsLower(s[i])) ==> ToUpper(s) == s
  {
  }

  /** The status update accepts its input exactly when this holds. */
  predicate AdminAccepts(input: string): (b: bool)
    ensures b ==> 4 <= |input| <= 10
    ensures input in AdminStatuses ==> b
  {
    UpperKeepsUpper(input);
    ToUpper(input) in AdminStatuses
  }

  /** Upper-casing is idempotent, so the update accepts its own stored value again. */
  lemma UpperIdempotent(s: string)
    ensures ToUpper(ToUpper(s)) == ToUpper(s)
  {
  }

  /** The update accepts a spelling exactly when it accepts its upper-cased form. */
  lemma AdminAcceptsAnyCase(s: string)
    ensures AdminAccepts(s) <==> AdminAccepts(ToUpper(s))
  {
    UpperIdempotent(s);
  }

  /** A stored upper-cased status is never "pending" or "paid": after an administrator's
      update the order can no longer be paid or cancelled, whatever status was chosen. */
  lemma UpperCasedNeverPendingOrPaid(s: string)
    ensures ToUpper(s) != Pending && ToUpper(s) != Paid
    ensures !Counted(ToUpper(s))
  {
    var u := ToUpper(s);
    if |u| > 0 {
      assert !IsLower(u[0]);
      assert Pending[0] == 'p' && Paid[0] == 'p' && Processing[0] == 'p';
      assert Shipped[0] == 's' && Delivered[0] == 'd';
    }
  }

  /** The administrator's choice of "paid", in any spelling, is stored as "PAID". */
  lemma PaidStoredUpperCase()
    ensures ToUpper(Paid) == "PAID" && AdminAccepts(Paid)
    ensures ToUpper("Paid") == "PAID"
  {
    assert ToUpper(Paid) == "PAID";
    assert ToUpper("Paid") == "PAID";
  }

  /** The status the update evidently means to store: the lower-case name the order
      and payment controllers compare against. */
  function IntendedStoredStatus(input: string): (r: string)
    requires AdminAccepts(input)
    ensures r in OrderStatuses
    ensures ToUpper(r) == ToUpper(input)
  {
    var u := ToUpper(input);
    assert ToUpper(Pending) == "PENDING" && ToUpper(Paid) == "PAID";
    assert ToUpper(Processing) == "PROCESSING" && ToUpper(Shipped) == "SHIPPED";
    assert ToUpper(Delivered) == "DELIVERED" && ToUpper(Cancelled) == "CANCELLED";
    if u == "PENDING" then Pending
    else if u == "PAID" then Paid
    else if u == "PROCESSING" then Processing
    else if u == "SHIPPED" then Shipped
    else if u == "DELIVERED" then Delivered
    else Cancelled
  }

  /** With the intended normalisation, choosing "PENDING" or "PAID" leaves the order
      payable or cancellable, which the stored upper-case value does not. */
  lemma IntendedStatusStaysCancellable(input: string)
    requires AdminAccepts(input)
    requires ToUpper(input) == "PENDING" || ToUpper(input) == "PAID"
    ensures IntendedStoredStatus(input) == Pending || IntendedStoredStatus(input) == Paid
    ensures ToUpper(input) != Pending && ToUpper(input) != Paid
  {
    UpperCasedNeverPendingOrPaid(input);
  }
}
