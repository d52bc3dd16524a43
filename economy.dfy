/**
 * The economy ledger: two balances, credits and tickets, changed only through
 * guarded spend and add operations, each of which reports the new balance to
 * its change listeners.
 */
module Economy {
  import opened Common

  /** A change notification: `OnCreditsChanged` or `OnTicketsChanged` with the new value. */
  datatype Event = CreditsChanged(credits: int) | TicketsChanged(tickets: int)

  /**
   * The effect of one ledger operation on one balance: what the call returned
   * or threw, the balance afterwards, and the value it notified, if any.
   */
  datatype Change<+T> = Change(outcome: Outcome<T>, balance: int, notified: Option<int>)

  /** `Spend...(amount)` applied to one balance. */
  function Spend(balance: int, amount: int): (r: Change<bool>)
    // a negative amount throws and changes nothing
    ensures amount < 0 ==> r == Change(Threw(ArgumentOutOfRange), balance, None)
    // an unaffordable spend is refused silently
    ensures 0 <= amount && balance < amount ==> r == Change(Returned(false), balance, None)
    // an affordable one lowers the balance by exactly amount and reports it
    ensures 0 <= amount <= balance ==>
      r.outcome == Returned(true) && r.balance == balance - amount && r.notified == Some(r.balance)
    // never drives the balance negative, never raises it
    ensures balance >= 0 ==> 0 <= r.balance <= balance
  {
    if amount < 0 then Change(Threw(ArgumentOutOfRange), balance, None)
    else if balance < amount then Change(Returned(false), balance, None)
    else Change(Returned(true), balance - amount, Some(balance - amount))
  }

  /** `Add...(amount)` applied to one balance. */
  function Add(balance: int, amount: int): (r: Change<()>)
    ensures amount < 0 ==> r == Change(Threw(ArgumentOutOfRange), balance, None)
    ensures amount >= 0 ==>
      r.outcome == Returned(()) && r.balance == balance + amount && r.notified == Some(r.balance)
    ensures balance >= 0 ==> r.balance >= balance
  {
    if amount < 0 then Change(Threw(ArgumentOutOfRange), balance, None)
    else Change(Returned(()), balance + amount, Some(balance + amount))
  }

  /** A successful spend followed by an add of the same amount restores the balance. */
  lemma SpendThenAddRestores(balance: int, amount: int)
    requires Spend(balance, amount).outcome == Returned(true)
    ensures Add(Spend(balance, amount).balance, amount).balance == balance
  {
  }

  /** One call on the ledger, as a value, to speak of any sequence of calls. */
  datatype Op =
    | SpendCredits(amount: int) | AddCredits(amount: int)
    | SpendTickets(amount: int) | AddTickets(amount: int)
  {
    predicate IsCreditOp() { SpendCredits? || AddCredits? }
  }

  datatype Ledger = Ledger(credits: int, tickets: int)

  /** The balances after one operation (a call that throws leaves them as they were). */
  function Apply(l: Ledger, op: Op): Ledger
  {
    match op
    case SpendCredits(n) => l.(credits := Spend(l.credits, n).balance)
    case AddCredits(n) => l.(credits := Add(l.credits, n).balance)
    case SpendTickets(n) => l.(tickets := Spend(l.tickets, n).balance)
    case AddTickets(n) => l.(tickets := Add(l.tickets, n).balance)
  }

  /** The balances after a sequence of operations, applied in order. */
  function Run(l: Ledger, ops: seq<Op>): Ledger
    decreases |ops|
  {
    if |ops| == 0 then l else Run(Apply(l, ops[0]), ops[1..])
  }

  /**
   * Starting from non-negative balances, no sequence of operations makes either
   * balance negative; credit operations never touch tickets and ticket
   * operations never touch credits.
   */
  lemma {:induction false} RunKeepsBalances(l: Ledger, ops: seq<Op>)
    requires l.credits >= 0 && l.tickets >= 0
    ensures Run(l, ops).credits >= 0 && Run(l, ops).tickets >= 0
    ensures (forall i :: 0 <= i < |ops| ==> ops[i].IsCreditOp()) ==> Run(l, ops).tickets == l.tickets
    ensures (forall i :: 0 <= i < |ops| ==> !ops[i].IsCreditOp()) ==> Run(l, ops).credits == l.credits
    decreases |ops|
  {
    if |ops| > 0 {
      RunKeepsBalances(Apply(l, ops[0]), ops[1..]);
      assert forall i :: 1 <= i < |ops| ==> ops[1..][i - 1] == ops[i];
    }
  }

  /** The credit notification a change produced, as a log suffix. */
  function CreditLog(notified: Option<int>): seq<Event>
  {
    if notified.Some? then [CreditsChanged(notified.value)] else []
  }

  /** The ticket notification a change produced, as a log suffix. */
  function TicketLog(notified: Option<int>): seq<Event>
  {
    if notified.Some? then [TicketsChanged(notified.value)] else []
  }

  /**
   * `EconomyService`.  `events` records, in order, the values passed to
   * `OnCreditsChanged` and `OnTicketsChanged`.
   */
  class EconomyService {
    var credits: int
    var tickets: int
    var events: seq<Event>

    ghost predicate Valid()
      reads this
    {
      credits >= 0 && tickets >= 0
    }

    /** Negative starting balances are raised to zero. */
    constructor (startCredits: int, startTickets: int)
      ensures Valid()
      ensures credits == ClampToNat(startCredits) && tickets == ClampToNat(startTickets)
      ensures startCredits >= 0 ==> credits == startCredits
      ensures startTickets >= 0 ==> tickets == startTickets
      ensures events == []
    {
      credits := if startCredits < 0 then 0 else startCredits;
      tickets := if startTickets < 0 then 0 else startTickets;
      events := [];
    }

    method SpendCredits(amount: int) returns (r: Outcome<bool>)
      requires Valid()
      modifies this
      ensures Valid()
      ensures r == Spend(old(credits), amount).outcome
      ensures credits == Spend(old(credits), amount).balance && tickets == old(tickets)
      ensures events == old(events) + CreditLog(Spend(old(credits), amount).notified)
    {
      if amount < 0 {
        return Threw(ArgumentOutOfRange);
      }
      if credits < amount {
        return Returned(false);
      }
      credits := credits - amount;
      events := events + [CreditsChanged(credits)];
      return Returned(true);
    }

    method AddCredits(amount: int) returns (r: Outcome<()>)
      requires Valid()
      modifies this
      ensures Valid()
      ensures r == Add(old(credits), amount).outcome
      ensures credits == Add(old(credits), amount).balance && tickets == old(tickets)
      ensures events == old(events) + CreditLog(Add(old(credits), amount).notified)
    {
      if amount < 0 {
        return Threw(ArgumentOutOfRange);
      }
      credits := credits + amount;
      events := events + [CreditsChanged(credits)];
      return Returned(());
    }

    method SpendTickets(amount: int) returns (r: Outcome<bool>)
      requires Valid()
      modifies this
      ensures Valid()
      ensures r == Spend(old(tickets), amount).outcome
      ensures tickets == Spend(old(tickets), amount).balance && credits == old(credits)
      ensures events == old(events) + TicketLog(Spend(old(tickets), amount).notified)
    {
      if amount < 0 {
        return Threw(ArgumentOutOfRange);
      }
      if tickets < amount {
        return Returned(false);
      }
      tickets := tickets - amount;
      events := events + [TicketsChanged(tickets)];
      return Returned(true);
    }

    method AddTickets(amount: int) returns (r: Outcome<()>)
      requires Valid()
      modifies this
      ensures Valid()
      ensures r == Add(old(tickets), amount).outcome
      ensures tickets == Add(old(tickets), amount).balance && credits == old(credits)
      ensures events == old(events) + TicketLog(Add(old(tickets), amount).notified)
    {
      if amount < 0 {
        return Threw(ArgumentOutOfRange);
      }
      tickets := tickets + amount;
      events := events + [TicketsChanged(tickets)];
      return Returned(());
    }
  }
}
