/**
  The payment webhook: a successful charge marks its invoice as paid and records a payment, both or
  neither. Amounts are in kobo. A delivery may come any number of times, and deliveries may be between
  the lookup of their invoice and their commit at the same time; the unique references of payments
  are what keeps an invoice from being paid twice.
 */
module Billing {
  import opened Wrappers

  datatype InvoiceStatus = Paid | Unpaid | Void | Uncollectible

  datatype Invoice = Invoice(number: string, amountDue: int, amountPaid: int, status: InvoiceStatus)

  datatype Payment = Payment(invoiceId: nat, paymentReference: string, paystackReference: string, amount: int)

  datatype Tables = Tables(invoices: seq<Invoice>, payments: seq<Payment>)

  datatype Delivery = Delivery(event: string, reference: string, amount: int, chargeId: Option<string>)

  const CHARGE_SUCCESS := "charge.success"

  function PaystackReference(d: Delivery): string { d.chargeId.GetOr(d.reference) }

  // ---------- The transaction ----------

  /** The unique constraints of the payment table refuse a payment with either reference. */
  predicate Refused(payments: seq<Payment>, p: Payment) {
    exists k :: 0 <= k < |payments| && (payments[k].paymentReference == p.paymentReference
                                        || payments[k].paystackReference == p.paystackReference)
  }

  function PaymentFor(id: nat, d: Delivery): Payment {
    Payment(id, d.reference, PaystackReference(d), d.amount)
  }

  function Settle(t: Tables, id: nat, d: Delivery): Tables {
    if id >= |t.invoices| || Refused(t.payments, PaymentFor(id, d)) then t
    else Tables(t.invoices[id := t.invoices[id].(status := Paid, amountPaid := d.amount)],
                t.payments + [PaymentFor(id, d)])
  }

  /** Invoice numbers are unique, so at most one invoice has the reference. */
  predicate Finds(t: Tables, d: Delivery, id: nat) {
    d.event == CHARGE_SUCCESS && id < |t.invoices| && t.invoices[id].number == d.reference
  }

  // ---------- Runs ----------

  datatype InFlight = InFlight(id: nat, delivery: Delivery)

  datatype World = World(tables: Tables, inFlight: seq<InFlight>)

  datatype Step = Receive(id: nat, delivery: Delivery) | Commit(k: nat) | Abandon(k: nat)

  function Next(w: World, s: Step): World {
    match s
    case Receive(id, d) =>
      if Finds(w.tables, d, id) then w.(inFlight := w.inFlight + [InFlight(id, d)]) else w
    case Commit(k) =>
      if k < |w.inFlight| then
        World(Settle(w.tables, w.inFlight[k].id, w.inFlight[k].delivery), Without(w.inFlight, k))
      else w
    case Abandon(k) => if k < |w.inFlight| then w.(inFlight := Without(w.inFlight, k)) else w
  }

  function Run(w: World, steps: seq<Step>): World {
    if steps == [] then w else Next(Run(w, steps[..|steps| - 1]), steps[|steps| - 1])
  }

  // ---------- What every run keeps ----------

  function PaymentsOf(payments: seq<Payment>, id: nat): seq<Payment> {
    if payments == [] then []
    else
      var p := payments[|payments| - 1];
      var before := PaymentsOf(payments[..|payments| - 1], id);
      if p.invoiceId == id then before + [p] else before
  }

  lemma PaymentsAppend(payments: seq<Payment>, p: Payment, id: nat)
    ensures PaymentsOf(payments + [p], id)
         == if p.invoiceId == id then PaymentsOf(payments, id) + [p] else PaymentsOf(payments, id)
  {
    assert (payments + [p])[..|payments|] == payments;
  }

  lemma {:induction false} PaymentsOfAreInTable(payments: seq<Payment>, id: nat)
    ensures forall p :: p in PaymentsOf(payments, id) ==> p in payments && p.invoiceId == id
  {
    if payments != [] { PaymentsOfAreInTable(payments[..|payments| - 1], id); }
  }

  function TotalPaid(invoices: seq<Invoice>): int {
    if invoices == [] then 0 else TotalPaid(invoices[..|invoices| - 1]) + invoices[|invoices| - 1].amountPaid
  }

  function TotalPayments(payments: seq<Payment>): int {
    if payments == [] then 0 else TotalPayments(payments[..|payments| - 1]) + payments[|payments| - 1].amount
  }

  /** Invoices as issued: unique numbers, and nothing paid yet. */
  ghost predicate Issued(invoices: seq<Invoice>) {
    && (forall i, j :: 0 <= i < j < |invoices| ==> invoices[i].number != invoices[j].number)
    && forall i :: 0 <= i < |invoices| ==> invoices[i].amountPaid == 0
  }

  /** An invoice is as issued, without a payment, or PAID with exactly one payment, of what it says was paid. */
  ghost predicate Settled(issued: Invoice, now: Invoice, own: seq<Payment>) {
    || (now == issued && own == [])
    || (|own| == 1 && own[0].paymentReference == issued.number
        && now == issued.(status := Paid, amountPaid := own[0].amount))
  }

  ghost predicate AllSettled(issued: seq<Invoice>, t: Tables) {
    && |t.invoices| == |issued|
    && (forall i :: 0 <= i < |issued| ==> Settled(issued[i], t.invoices[i], PaymentsOf(t.payments, i)))
    && (forall k :: 0 <= k < |t.payments| ==>
          var p := t.payments[k]; p.invoiceId < |issued| && p.paymentReference == issued[p.invoiceId].number)
    && TotalPaid(t.invoices) == TotalPayments(t.payments)
  }

  /** Each delivery in flight is for the invoice that has its reference as number. */
  ghost predicate WellAddressed(issued: seq<Invoice>, inFlight: seq<InFlight>) {
    forall k :: 0 <= k < |inFlight| ==>
      inFlight[k].id < |issued| && issued[inFlight[k].id].number == inFlight[k].delivery.reference
  }

  ghost predicate Sound(issued: seq<Invoice>, w: World) {
    AllSettled(issued, w.tables) && WellAddressed(issued, w.inFlight)
  }

  lemma {:induction false} TotalPaidAfterUpdate(invoices: seq<Invoice>, id: nat, row: Invoice)
    requires id < |invoices|
    ensures TotalPaid(invoices[id := row]) == TotalPaid(invoices) - invoices[id].amountPaid + row.amountPaid
  {
    var n := |invoices| - 1;
    if id == n {
      assert invoices[id := row][..n] == invoices[..n];
    } else {
      assert invoices[id := row][..n] == invoices[..n][id := row];
      TotalPaidAfterUpdate(invoices[..n], id, row);
    }
  }

  /** A paid invoice has its number among the payment references, so no second payment gets in. */
  lemma PaidInvoiceRefuses(issued: seq<Invoice>, t: Tables, id: nat, d: Delivery)
    requires AllSettled(issued, t) && id < |issued| && d.reference == issued[id].number
    requires PaymentsOf(t.payments, id) != []
    ensures Refused(t.payments, PaymentFor(id, d))
  {
    var own := PaymentsOf(t.payments, id);
    PaymentsOfAreInTable(t.payments, id);
    assert own[0] in own;
    var k :| 0 <= k < |t.payments| && t.payments[k] == own[0];
    assert Settled(issued[id], t.invoices[id], own);
  }

  /** One committed payment: the invoice it settles, and every other. */
  lemma SettledAfterPayment(issued: seq<Invoice>, t: Tables, id: nat, d: Delivery, i: nat)
    requires AllSettled(issued, t) && id < |issued| && d.reference == issued[id].number && i < |issued|
    requires !Refused(t.payments, PaymentFor(id, d))
    ensures Settled(issued[i], Settle(t, id, d).invoices[i], PaymentsOf(Settle(t, id, d).payments, i))
    ensures t.invoices[id] == issued[id]
  {
    if PaymentsOf(t.payments, id) != [] { PaidInvoiceRefuses(issued, t, id, d); }
    PaymentsAppend(t.payments, PaymentFor(id, d), i);
    assert Settled(issued[i], t.invoices[i], PaymentsOf(t.payments, i));
    assert Settled(issued[id], t.invoices[id], PaymentsOf(t.payments, id));
  }

  lemma TotalsAfterPayment(t: Tables, id: nat, d: Delivery)
    requires id < |t.invoices| && t.invoices[id].amountPaid == 0
    requires !Refused(t.payments, PaymentFor(id, d))
    requires TotalPaid(t.invoices) == TotalPayments(t.payments)
    ensures TotalPaid(Settle(t, id, d).invoices) == TotalPayments(Settle(t, id, d).payments)
  {
    var t' := Settle(t, id, d);
    TotalPaidAfterUpdate(t.invoices, id, t'.invoices[id]);
    assert t'.payments[..|t.payments|] == t.payments;
  }

  lemma SettleKeepsAllSettled(issued: seq<Invoice>, t: Tables, id: nat, d: Delivery)
    requires Issued(issued) && AllSettled(issued, t) && id < |issued| && d.reference == issued[id].number
    ensures AllSettled(issued, Settle(t, id, d))
  {
    var t' := Settle(t, id, d);
    if !Refused(t.payments, PaymentFor(id, d)) {
      forall i: nat | i < |issued| ensures Settled(issued[i], t'.invoices[i], PaymentsOf(t'.payments, i)) {
        SettledAfterPayment(issued, t, id, d, i);
      }
      SettledAfterPayment(issued, t, id, d, id);
      TotalsAfterPayment(t, id, d);
    }
  }

  lemma StillWellAddressed(issued: seq<Invoice>, inFlight: seq<InFlight>, k: nat)
    requires WellAddressed(issued, inFlight) && k < |inFlight|
    ensures WellAddressed(issued, Without(inFlight, k))
  {
  }

  lemma {:induction false} NothingPaidYet(invoices: seq<Invoice>)
    requires forall i :: 0 <= i < |invoices| ==> invoices[i].amountPaid == 0
    ensures TotalPaid(invoices) == 0
  {
    if invoices != [] { NothingPaidYet(invoices[..|invoices| - 1]); }
  }

  lemma NextKeepsSound(issued: seq<Invoice>, w: World, s: Step)
    requires Issued(issued) && Sound(issued, w)
    ensures Sound(issued, Next(w, s))
  {
    match s
    case Receive(id, d) =>
      if Finds(w.tables, d, id) {
        assert Settled(issued[id], w.tables.invoices[id], PaymentsOf(w.tables.payments, id));
      }
    case Commit(k) =>
      if k < |w.inFlight| {
        SettleKeepsAllSettled(issued, w.tables, w.inFlight[k].id, w.inFlight[k].delivery);
        StillWellAddressed(issued, w.inFlight, k);
      }
    case Abandon(k) => if k < |w.inFlight| { StillWellAddressed(issued, w.inFlight, k); }
  }

  /**
    Under any deliveries in any interleaving each invoice is as issued or PAID with exactly one
    payment of `amountPaid`, so what the invoices say was paid is what the payments add up to.
   */
  lemma {:induction false} EveryRunIsSound(issued: seq<Invoice>, steps: seq<Step>)
    requires Issued(issued)
    ensures Sound(issued, Run(World(Tables(issued, []), []), steps))
  {
    if steps == [] {
      NothingPaidYet(issued);
    } else {
      EveryRunIsSound(issued, steps[..|steps| - 1]);
      NextKeepsSound(issued, Run(World(Tables(issued, []), []), steps[..|steps| - 1]), steps[|steps| - 1]);
    }
  }

  lemma SettleKeepsPaid(issued: seq<Invoice>, t: Tables, id: nat, d: Delivery, paid: nat)
    requires AllSettled(issued, t) && id < |issued| && d.reference == issued[id].number
    requires paid < |issued| && PaymentsOf(t.payments, paid) != []
    ensures |Settle(t, id, d).invoices| == |issued| && Settle(t, id, d).invoices[paid] == t.invoices[paid]
    ensures PaymentsOf(Settle(t, id, d).payments, paid) == PaymentsOf(t.payments, paid)
  {
    if id == paid { PaidInvoiceRefuses(issued, t, id, d); }
    PaymentsAppend(t.payments, PaymentFor(id, d), paid);
  }

  /** The first payment of an invoice is its last: no later delivery changes a paid invoice. */
  lemma {:induction false} FirstPaymentStands(issued: seq<Invoice>, w: World, steps: seq<Step>, id: nat)
    requires Issued(issued) && Sound(issued, w) && id < |issued| && PaymentsOf(w.tables.payments, id) != []
    ensures Sound(issued, Run(w, steps))
    ensures Run(w, steps).tables.invoices[id] == w.tables.invoices[id]
    ensures PaymentsOf(Run(w, steps).tables.payments, id) == PaymentsOf(w.tables.payments, id)
  {
    if steps != [] {
      var s, before := steps[|steps| - 1], Run(w, steps[..|steps| - 1]);
      FirstPaymentStands(issued, w, steps[..|steps| - 1], id);
      NextKeepsSound(issued, before, s);
      if s.Commit? && s.k < |before.inFlight| {
        SettleKeepsPaid(issued, before.tables, before.inFlight[s.k].id, before.inFlight[s.k].delivery, id);
      }
    }
  }

  /**
    A delivery for an unpaid invoice takes effect exactly when no payment carries its gateway
    reference. That reference is the charge id, or the invoice's own number when the charge has
    none, so a charge whose id was used before never takes effect (`RefusedForGood`); another charge
    may still pay the invoice.
   */
  lemma DeliveryTakesEffectExactlyWhen(issued: seq<Invoice>, w: World, id: nat, d: Delivery)
    requires Issued(issued) && Sound(issued, w) && Finds(w.tables, d, id)
    requires PaymentsOf(w.tables.payments, id) == []
    ensures Settle(w.tables, id, d) != w.tables
       <==> forall k :: 0 <= k < |w.tables.payments| ==> w.tables.payments[k].paystackReference != PaystackReference(d)
  {
    var payments := w.tables.payments;
    assert Settled(issued[id], w.tables.invoices[id], []);
    forall k | 0 <= k < |payments| ensures payments[k].paymentReference != d.reference {
      if payments[k].invoiceId == id { TableRowIsOwn(payments, k); }
    }
  }

  lemma {:induction false} PaymentsStay(w: World, steps: seq<Step>)
    ensures w.tables.payments <= Run(w, steps).tables.payments
  {
    if steps != [] { PaymentsStay(w, steps[..|steps| - 1]); }
  }

  /** A delivery that is refused once is refused after any further steps. */
  lemma RefusedForGood(w: World, steps: seq<Step>, id: nat, d: Delivery)
    requires Refused(w.tables.payments, PaymentFor(id, d))
    ensures Settle(Run(w, steps).tables, id, d) == Run(w, steps).tables
  {
    var later, p := Run(w, steps).tables.payments, PaymentFor(id, d);
    PaymentsStay(w, steps);
    var k :| 0 <= k < |w.tables.payments| && (w.tables.payments[k].paymentReference == p.paymentReference
                                              || w.tables.payments[k].paystackReference == p.paystackReference);
    assert later[k] == w.tables.payments[k];
  }

  lemma {:induction false} TableRowIsOwn(payments: seq<Payment>, k: nat)
    requires k < |payments|
    ensures PaymentsOf(payments, payments[k].invoiceId) != []
  {
    if k < |payments| - 1 { TableRowIsOwn(payments[..|payments| - 1], k); }
  }

  /** A delivery that is served alone is a lookup and a commit with nothing in between. */
  lemma SettleIsARun(t: Tables, id: nat, d: Delivery)
    requires Finds(t, d, id)
    ensures Run(World(t, []), [Receive(id, d), Commit(0)]) == World(Settle(t, id, d), [])
  {
    var w, steps := World(t, []), [Receive(id, d), Commit(0)];
    assert steps[..1] == [Receive(id, d)] && steps[..1][..0] == [];
    assert Run(w, []) == w;
    assert Run(w, steps[..1]) == World(t, [InFlight(id, d)]);
    assert Without([InFlight(id, d)], 0) == [];
  }

  // ---------- The service ----------

  datatype Error = UniqueViolation

  class BillingService {
    var invoices: seq<Invoice>
    var payments: seq<Payment>

    ghost function State(): Tables reads this { Tables(invoices, payments) }

    constructor (issued: seq<Invoice>)
      ensures State() == Tables(issued, [])
    {
      invoices, payments := issued, [];
    }

    method FindInvoice(number: string) returns (found: Option<nat>)
      ensures found.Some? ==> found.value < |invoices| && invoices[found.value].number == number
      ensures found.None? ==> forall i :: 0 <= i < |invoices| ==> invoices[i].number != number
    {
      for i := 0 to |invoices|
        invariant forall j :: 0 <= j < i ==> invoices[j].number != number
      {
        if invoices[i].number == number {
          return Some(i);
        }
      }
      return None;
    }

    /** The update and the insert are one transaction: a refused payment takes the update back. */
    method HandlePaystackWebhook(d: Delivery) returns (r: Result<bool, Error>)
      modifies this
      ensures (forall id: nat :: !Finds(old(State()), d, id)) ==> r == Ok(true) && State() == old(State())
      ensures (exists id: nat :: Finds(old(State()), d, id)) ==>
                exists id: nat ::
                  && Finds(old(State()), d, id)
                  && State() == Settle(old(State()), id, d)
                  && World(State(), []) == Run(World(old(State()), []), [Receive(id, d), Commit(0)])
                  && (r.Err? <==> Refused(old(payments), PaymentFor(id, d)))
      ensures d.event != "charge.success" || (forall i :: 0 <= i < |old(invoices)| ==> old(invoices)[i].number != d.reference) ==>
                r == Ok(true) && invoices == old(invoices) && payments == old(payments)
      ensures d.event == "charge.success" && (exists i :: 0 <= i < |old(invoices)| && old(invoices)[i].number == d.reference) ==>
                var gateway := if d.chargeId.Some? then d.chargeId.value else d.reference;
                && (r.Err? <==> exists k :: 0 <= k < |old(payments)| && (old(payments)[k].paymentReference == d.reference
                                                                        || old(payments)[k].paystackReference == gateway))
                && (r.Err? ==> invoices == old(invoices) && payments == old(payments))
                && (r.Ok? ==> exists i: nat ::
                      && i < |old(invoices)| && old(invoices)[i].number == d.reference
                      && invoices == old(invoices)[i := old(invoices)[i].(status := Paid, amountPaid := d.amount)]
                      && payments == old(payments) + [Payment(i, d.reference, gateway, d.amount)])
    {
      if d.event == CHARGE_SUCCESS {
        var invoice := FindInvoice(d.reference);
        if invoice.Some? {
          var id, before := invoice.value, invoices;
          assert Finds(State(), d, id);
          SettleIsARun(State(), id, d);
          invoices := invoices[id := invoices[id].(status := Paid, amountPaid := d.amount)];
          var created := Payment(id, d.reference, PaystackReference(d), d.amount);
          if Refused(payments, created) {
            invoices := before;
            return Err(UniqueViolation);
          }
          payments := payments + [created];
        }
      }
      return Ok(true);
    }
  }
}
