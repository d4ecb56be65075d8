/** Subscriptions, the invoices raised against them, and the payments that collect the invoices. */
module BillingUseCases {
  import opened Rows
  import opened Spec
  import opened ShopSession

  method Subscribe(session: Session, userId: int, planId: int) returns (reply: Reply)
    requires session.Idle()
    modifies session
    ensures session.Idle() && session.sequence == old(session.sequence) + 1
    ensures Outcome(session.committed, reply)
         == Spec.Subscribe(old(session.committed), userId, planId, old(session.sequence))
  {
    var ok := session.AddSubscription(Subscription(userId, planId, true));
    if !ok {
      session.Rollback();
      return Raised;
    }
    session.Commit();
    reply := Done;
  }

  method CancelSubscription(session: Session, subscriptionId: int) returns (reply: Reply)
    requires session.Idle()
    modifies session
    ensures session.Idle() && session.sequence == old(session.sequence)
    ensures Outcome(session.committed, reply) == Spec.CancelSubscription(old(session.committed), subscriptionId)
  {
    var subscription := session.FirstSubscription(subscriptionId);
    if subscription == null {
      session.Rollback();
      return NotFound;
    }
    subscription.active := false;
    session.UpdateSubscription(subscription);
    session.Commit();
    reply := Done;
  }

  method IssueInvoice(session: Session, subscriptionId: int, amountCents: int) returns (reply: Reply)
    requires session.Idle()
    modifies session
    ensures session.Idle() && session.sequence == old(session.sequence) + 1
    ensures Outcome(session.committed, reply)
         == Spec.IssueInvoice(old(session.committed), subscriptionId, amountCents, old(session.sequence))
  {
    var ok, _ := session.AddInvoice(Invoice(amountCents, false, subscriptionId));
    if !ok {
      session.Rollback();
      return Raised;
    }
    session.Commit();
    reply := Done;
  }

  method PayInvoice(session: Session, invoiceId: int, word: string) returns (reply: Reply)
    requires session.Idle()
    modifies session
    ensures session.Idle() && session.sequence == old(session.sequence)
    ensures Outcome(session.committed, reply) == Spec.PayInvoice(old(session.committed), invoiceId, word)
  {
    if word !in PAYMENT_KINDS {
      session.Rollback();
      return UnknownMethod;
    }
    var invoice := session.FirstInvoice(invoiceId);
    if invoice == null {
      session.Rollback();
      return NotFound;
    }
    session.AddPayment(Payment(invoice.amountCents, word, invoiceId));
    invoice.paid := true;
    session.UpdateInvoice(invoice);
    session.Commit();
    reply := Done;
  }
}
