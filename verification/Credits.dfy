/** src/meshpipeline/application/credit_service.py: an append-only ledger whose balance is derived. */
module Credits {
  import opened Wrappers

  datatype Kind = GrantEntry | DebitEntry | RefundEntry

  datatype Entry = Entry(id: Option<string>, org: nat, kind: Kind, amount: int, reason: string, overage: int)

  datatype CreditError = NegativeAmount | OverageOutOfRange | EntryIdUsed

  function Balance(entries: seq<Entry>, org: nat): int {
    if entries == [] then 0
    else
      var last := entries[|entries| - 1];
      Balance(entries[..|entries| - 1], org) + if last.org == org then last.amount else 0
  }

  lemma {:induction false} BalanceOfNothing(org: nat)
    ensures Balance([], org) == 0
  {
  }

  lemma {:induction false} BalanceOfAppend(entries: seq<Entry>, e: Entry, org: nat)
    ensures Balance(entries + [e], org) == Balance(entries, org) + if e.org == org then e.amount else 0
  {
    assert (entries + [e])[..|entries|] == entries;
  }

  ghost predicate Holds(entries: seq<Entry>, id: string) {
    exists i :: 0 <= i < |entries| && entries[i].id == Some(id)
  }

  /** A ledger keeps the sign of each kind, and no entry is empty. */
  ghost predicate WellFormed(entries: seq<Entry>) {
    && (forall i :: 0 <= i < |entries| ==>
          && (if entries[i].kind == DebitEntry then entries[i].amount < 0 else entries[i].amount > 0)
          && 0 <= entries[i].overage
          && (if entries[i].kind == DebitEntry then entries[i].overage <= -entries[i].amount
              else entries[i].overage == 0))
    && (forall i, j :: 0 <= i < j < |entries| && entries[i].id.Some? ==> entries[i].id != entries[j].id)
  }

  class Ledger {
    var entries: seq<Entry>

    constructor ()
      ensures entries == [] && WellFormed(entries)
    {
      entries := [];
    }

    /** Positive only; zero writes nothing; a repeated operation id is answered from the entry it
        already wrote, and refused when that entry says something else. */
    method Grant(org: nat, amount: int, reason: string, id: Option<string>) returns (error: Option<CreditError>)
      requires WellFormed(entries)
      modifies this
      ensures WellFormed(entries)
      ensures amount < 0 ==> error == Some(NegativeAmount)
      ensures error.Some? || amount == 0 || (id.Some? && old(Holds(entries, id.value))) ==> entries == old(entries)
      ensures amount >= 0 && error.Some? ==> error.value == EntryIdUsed && id.Some? && old(Holds(entries, id.value))
      ensures amount > 0 && id.Some? && old(Holds(entries, id.value)) ==>
                (error.None? <==>
                   exists e :: e in entries && e.id == id && e.org == org && e.kind == GrantEntry && e.amount == amount
                      && e.reason == reason)
      ensures amount > 0 && !(id.Some? && old(Holds(entries, id.value))) ==>
                error.None? && entries == old(entries) + [Entry(id, org, GrantEntry, amount, reason, 0)]
    {
      if amount < 0 { return Some(NegativeAmount); }
      if amount == 0 { return None; }
      if id.Some? {
        for i := 0 to |entries|
          invariant entries == old(entries)
          invariant forall k :: 0 <= k < i ==> entries[k].id != id
        {
          if entries[i].id == id {
            var existing := entries[i];
            if existing.org != org || existing.kind != GrantEntry || existing.amount != amount
                || existing.reason != reason {
              assert forall e :: e in entries && e.id == id ==> e == existing;
              return Some(EntryIdUsed);
            }
            return None;
          }
        }
      }
      entries := entries + [Entry(id, org, GrantEntry, amount, reason, 0)];
      return None;
    }

    /** Takes a positive amount and stores it negated. */
    method Debit(org: nat, amount: int, reason: string, overage: int) returns (error: Option<CreditError>)
      requires WellFormed(entries)
      modifies this
      ensures WellFormed(entries)
      ensures amount < 0 <==> error == Some(NegativeAmount)
      ensures error == Some(OverageOutOfRange) <==> amount > 0 && !(0 <= overage <= amount)
      ensures error.Some? || amount == 0 ==> entries == old(entries)
      ensures error.None? && amount > 0 ==>
          entries == old(entries) + [Entry(None, org, DebitEntry, -amount, reason, overage)]
    {
      if amount < 0 { return Some(NegativeAmount); }
      if amount == 0 { return None; }
      if !(0 <= overage <= amount) { return Some(OverageOutOfRange); }
      entries := entries + [Entry(None, org, DebitEntry, -amount, reason, overage)];
      return None;
    }

    method Refund(org: nat, amount: int, reason: string) returns (error: Option<CreditError>)
      requires WellFormed(entries)
      modifies this
      ensures WellFormed(entries)
      ensures amount < 0 <==> error.Some?
      ensures error.Some? || amount == 0 ==> entries == old(entries)
      ensures error.None? && amount > 0 ==> entries == old(entries) + [Entry(None, org, RefundEntry, amount, reason, 0)]
    {
      if amount < 0 { return Some(NegativeAmount); }
      if amount == 0 { return None; }
      entries := entries + [Entry(None, org, RefundEntry, amount, reason, 0)];
      return None;
    }

  }

  /** A refund undoes a debit for every balance, and the ledger keeps both entries to say why. */
  lemma RefundUndoesDebit(entries: seq<Entry>, org: nat, amount: int, reason: string, overage: int)
    ensures var charged := entries + [Entry(None, org, DebitEntry, -amount, reason, overage)];
            var returned := charged + [Entry(None, org, RefundEntry, amount, reason, 0)];
            entries <= returned && forall other: nat :: Balance(returned, other) == Balance(entries, other)
  {
    var debit, refund := Entry(None, org, DebitEntry, -amount, reason, overage),
        Entry(None, org, RefundEntry, amount, reason, 0);
    forall other: nat ensures Balance(entries + [debit] + [refund], other) == Balance(entries, other) {
      BalanceOfAppend(entries, debit, other);
      BalanceOfAppend(entries + [debit], refund, other);
    }
  }
}
