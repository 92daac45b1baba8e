/**
  Collections keep every layer of the invariants, whatever is reused. Only the agreement of
  a completed settlement with its amount and fee needs a reused pending payment to keep its
  amount, and what is missing then is exactly the difference.
 */
module CollectionProofs {
  import opened Tables
  import opened Books
  import opened Collections
  import opened Invariants

  // ---------- Completion ----------

  lemma CollectionSums(organization: nat, settled: int, amount: int, fee: nat, f: Line -> int)
    ensures var lines := CollectionLines(organization, settled, amount, fee);
            Sum(lines, f) == f(lines[0]) + f(lines[1]) + if fee > 0 then f(lines[2]) else 0
  {
    var lines := CollectionLines(organization, settled, amount, fee);
    var pair := [lines[0], lines[1]];
    SumPair(lines[0], lines[1], f);
    if fee > 0 {
      assert lines == pair + [lines[2]];
      SumAppend(pair, lines[2], f);
    } else {
      assert lines == pair;
    }
  }

  /** The posted entry of a collection balances exactly when the settlement covers amount and fee. */
  lemma CollectionBalances(organization: nat, settled: int, amount: int, fee: nat)
    ensures Balances(CollectionLines(organization, settled, amount, fee)) <==> settled == amount + fee
  {
    CollectionSums(organization, settled, amount, fee, Debits);
    CollectionSums(organization, settled, amount, fee, Credits);
  }

  lemma Credited(s: State, o: Owner, amount: int)
    requires o in s.wallets
    ensures Worth(CreditWallet(s, o, amount)) == Worth(s) + amount
    ensures LedgerAgrees(s) ==> CreditWallet(s, o, amount) == Move(s, o, amount)
    ensures LedgerAgrees(s) ==> LedgerAgrees(CreditWallet(s, o, amount))
  {
    var wallet := s.wallets[o];
    WalletWritten(s, o, wallet.(balance := wallet.balance + amount, ledger := wallet.balance + amount));
  }

  lemma WalletsReady(s: State, organization: nat, fee: nat)
    ensures Worth(WithWallets(s, organization, fee)) == Worth(s)
    ensures Sound(s) ==> Sound(WithWallets(s, organization, fee))
    ensures Settled(s) ==> Settled(WithWallets(s, organization, fee))
    ensures Reserved(s) ==> Reserved(WithWallets(s, organization, fee))
  {
    var s1 := EnsureWallet(s, Organization(organization));
    WalletEnsured(s, Organization(organization));
    WalletEnsured(s1, Platform);
  }

  /** The two credited wallets, before the settlement account and the rows are written. */
  function CreditedWallets(s: State, organization: nat, amount: int, fee: nat): State {
    var s1 := CreditWallet(WithWallets(s, organization, fee), Organization(organization), amount);
    if fee > 0 then CreditWallet(s1, Platform, fee) else s1
  }

  /** A completion creates or destroys exactly the part of the settlement that no wallet receives. */
  lemma CreditWorth(s: State, p: nat, charge: nat, settled: int)
    requires p < |s.pendings|
    ensures Worth(CreditPayment(s, p, charge, settled))
         == Worth(s) + s.pendings[p].amount + s.pendings[p].ServiceFee() - settled
  {
    var row := s.pendings[p];
    var fee := row.ServiceFee();
    var ready := WithWallets(s, row.organization, fee);
    WalletsReady(s, row.organization, fee);
    Credited(ready, Organization(row.organization), row.amount);
    if fee > 0 {
      Credited(CreditWallet(ready, Organization(row.organization), row.amount), Platform, fee);
    }
  }

  lemma CreditMoves(s: State, o: Owner, amount: int)
    requires LedgerAgrees(s) && o in s.wallets
    ensures var t := CreditWallet(s, o, amount);
            && LedgerAgrees(t) && t.wallets.Keys == s.wallets.Keys
            && PlatformBalance(t) == PlatformBalance(s) + (if o.Platform? then amount else 0)
            && (forall q :: HeldBy(t, q) == HeldBy(s, q))
            && (forall q :: Slack(t, q) == Slack(s, q) + if q == o then amount else 0)
            && (forall a :: LedgerOf(t, a) == LedgerOf(s, a) + if a == WalletAccount(o) then amount else 0)
  {
    Credited(s, o, amount);
    Moved(s, o, amount);
  }

  lemma CreditEffects(s: State, organization: nat, amount: int, fee: nat)
    requires LedgerAgrees(s)
    ensures var t := CreditedWallets(s, organization, amount, fee);
            && LedgerAgrees(t) && s.wallets.Keys <= t.wallets.Keys
            && PlatformBalance(t) == PlatformBalance(s) + fee
            && (forall o :: HeldBy(t, o) == HeldBy(s, o))
            && (forall o :: Slack(t, o) == Slack(s, o)
                 + (if o == Organization(organization) then amount else 0) + (if o == Platform then fee else 0))
            && (forall a :: LedgerOf(t, a) == LedgerOf(s, a)
                 + (if a == WalletAccount(Organization(organization)) then amount else 0)
                 + (if a == WalletAccount(Platform) then fee else 0))
  {
    WalletEnsured(s, Organization(organization));
    WalletEnsured(EnsureWallet(s, Organization(organization)), Platform);
    CreditMoves(WithWallets(s, organization, fee), Organization(organization), amount);
    if fee > 0 {
      CreditMoves(CreditWallet(WithWallets(s, organization, fee), Organization(organization), amount), Platform, fee);
    }
  }

  lemma CreditSound(s: State, p: nat, charge: nat, settled: int)
    requires Sound(s) && p < |s.pendings|
    ensures Sound(CreditPayment(s, p, charge, settled))
  {
    var row := s.pendings[p];
    var t := CreditPayment(s, p, charge, settled);
    CreditEffects(s, row.organization, row.amount, row.ServiceFee());
    assert t.wallets == CreditedWallets(s, row.organization, row.amount, row.ServiceFee()).wallets;
    RowsCarryOver(s, t);
  }

  lemma CollectionEffect(reference: nat, organization: nat, settled: int, amount: int, fee: nat)
    ensures var entry := Entry(ForPayment(reference), CollectionLines(organization, settled, amount, fee),
                               Posted, true);
            && ServiceFees(entry) == fee && FeeShares(entry) == 0
            && forall a :: EffectOn(entry, a)
                 == (if a == BachsSettlement then settled else 0)
                  + (if a == WalletAccount(Organization(organization)) then amount else 0)
                  + (if a == WalletAccount(Platform) then fee else 0)
  {
    var entry := Entry(ForPayment(reference), CollectionLines(organization, settled, amount, fee), Posted, true);
    CollectionSums(organization, settled, amount, fee, ServiceFeeCredit);
    CollectionSums(organization, settled, amount, fee, FeeShareDebit);
    forall a ensures EffectOn(entry, a)
               == (if a == BachsSettlement then settled else 0)
                + (if a == WalletAccount(Organization(organization)) then amount else 0)
                + (if a == WalletAccount(Platform) then fee else 0)
    {
      CollectionSums(organization, settled, amount, fee, SignedOn(a));
      CollectionSums(organization, settled, amount, fee, CreditOn(a));
    }
  }

  lemma CreditJournal(s: State, p: nat, charge: nat, settled: int)
    requires Sound(s) && JournalAgrees(s) && p < |s.pendings|
    ensures JournalAgrees(CreditPayment(s, p, charge, settled))
  {
    var row := s.pendings[p];
    var fee := row.ServiceFee();
    var t := CreditPayment(s, p, charge, settled);
    var paid := CreditedWallets(s, row.organization, row.amount, fee);
    CreditEffects(s, row.organization, row.amount, fee);
    assert t.wallets == paid.wallets;
    CollectionEffect(row.reference, row.organization, settled, row.amount, fee);
    var entry := Entry(ForPayment(row.reference), CollectionLines(row.organization, settled, row.amount, fee),
                       Posted, true);
    forall a ensures LedgerOf(t, a) == LedgerOf(s, a) + EffectOn(entry, a) {
      assert !a.BachsSettlement? ==> LedgerOf(t, a) == LedgerOf(paid, a);
    }
    JournalAppended(s, t, entry);
  }

  lemma CreditSettled(s: State, p: nat, charge: nat, settled: int)
    requires Sound(s) && Settled(s) && p < |s.pendings|
    ensures Settled(CreditPayment(s, p, charge, settled))
  {
    var row := s.pendings[p];
    var fee := row.ServiceFee();
    var t := CreditPayment(s, p, charge, settled);
    CreditJournal(s, p, charge, settled);
    CreditEffects(s, row.organization, row.amount, fee);
    assert t.wallets == CreditedWallets(s, row.organization, row.amount, fee).wallets;
    CollectionEffect(row.reference, row.organization, settled, row.amount, fee);
    EntryAdded(s.entries, t.entries[|s.entries|]);
    RowsCarryOver(s, t);
  }

  lemma CreditReserved(s: State, p: nat, charge: nat, settled: int)
    requires Sound(s) && Reserved(s) && p < |s.pendings|
    ensures Reserved(CreditPayment(s, p, charge, settled))
  {
    var row := s.pendings[p];
    CreditEffects(s, row.organization, row.amount, row.ServiceFee());
    var t := CreditPayment(s, p, charge, settled);
    assert t.wallets == CreditedWallets(s, row.organization, row.amount, row.ServiceFee()).wallets;
    forall o ensures HeldBy(t, o) == HeldBy(s, o) {
      assert HeldBy(CreditedWallets(s, row.organization, row.amount, row.ServiceFee()), o) == HeldBy(s, o);
    }
  }

  // ---------- Steps that write pending rows only ----------

  lemma OnlyPendings(s: State, t: State)
    requires Sound(s) && WritesPendings(s, t)
    ensures Sound(t) && (Settled(s) ==> Settled(t)) && (Reserved(s) ==> Reserved(t))
  {
    RowsCarryOver(s, t);
    if Settled(s) {
      assert forall a :: LedgerOf(t, a) == LedgerOf(s, a);
    }
    if Reserved(s) {
      assert forall o :: HeldBy(t, o) == HeldBy(s, o);
    }
  }

  ghost predicate WritesPendings(s: State, t: State) {
    && t == s.(pendings := t.pendings, dues := t.dues)
    && forall p :: 0 <= p < |t.pendings| ==> t.pendings[p].amount >= MINIMUM_CHECKOUT
  }

  lemma InitiateWritesPendings(s: State, event: Event)
    requires Sound(s) && event.Initiate?
    ensures WritesPendings(s, Step(s, event).state)
    ensures TermsAgree(s) ==> TermsAgree(Step(s, event).state)
  {
    if event.amount >= MINIMUM_CHECKOUT {
      var existing := FindReusable(s.pendings, event.user, event.organization, event.due);
      var row := NewPending(event.user, event.organization, event.due, event.amount,
                            event.reference, event.fee, event.now);
      InsertWrites(s, s, row);
      if existing.Some? {
        ReplaceWrites(s, existing.value, CheckoutStatus.Expired, row);
        ReplaceWrites(s, existing.value, CheckoutStatus.Cancelled, row);
      }
    }
  }

  lemma ReplaceWrites(s: State, p: nat, status: CheckoutStatus, row: PendingPayment)
    requires WritesPendings(s, s) && p < |s.pendings| && row.amount >= MINIMUM_CHECKOUT && GoodTerms(row)
    ensures WritesPendings(s, Created(s, CreatePending(SetStatus(s, p, status), row)).state)
    ensures TermsAgree(s) ==> TermsAgree(Created(s, CreatePending(SetStatus(s, p, status), row)).state)
  {
    CloseWrites(s, p, status);
    InsertWrites(s, SetStatus(s, p, status), row);
  }

  lemma CloseWrites(s: State, p: nat, status: CheckoutStatus)
    requires WritesPendings(s, s) && p < |s.pendings|
    ensures WritesPendings(s, SetStatus(s, p, status))
    ensures TermsAgree(s) ==> TermsAgree(SetStatus(s, p, status))
  {}

  lemma InsertWrites(s: State, closed: State, row: PendingPayment)
    requires WritesPendings(s, s) && WritesPendings(s, closed) && row.amount >= MINIMUM_CHECKOUT && GoodTerms(row)
    requires TermsAgree(s) ==> TermsAgree(closed)
    ensures WritesPendings(s, Created(s, CreatePending(closed, row)).state)
    ensures TermsAgree(s) ==> TermsAgree(Created(s, CreatePending(closed, row)).state)
  {}

  lemma OthersWritePendings(s: State, event: Event)
    requires Sound(s) && !event.Complete? && !event.Initiate?
    ensures WritesPendings(s, Step(s, event).state)
  {}

  /** Any collection event, in any order, keeps the books sound and what payouts rely on. */
  lemma CollectionKeeps(s: State, event: Event)
    requires Sound(s)
    ensures var t := Step(s, event).state;
            Sound(t) && (Settled(s) ==> Settled(t)) && (Reserved(s) ==> Reserved(t))
  {
    if event.Complete? {
      if Step(s, event).outcome.Credited? {
        CreditSound(s, event.p, event.charge, event.amount);
        if Settled(s) { CreditSettled(s, event.p, event.charge, event.amount); }
        if Reserved(s) { CreditReserved(s, event.p, event.charge, event.amount); }
      }
    } else {
      if event.Initiate? { InitiateWritesPendings(s, event); } else { OthersWritePendings(s, event); }
      OnlyPendings(s, Step(s, event).state);
    }
  }

  // ---------- Terms ----------

  /** Attaching keeps the terms of a row exactly when this call's amount is the row's. */
  lemma AttachKeepsTerms(row: PendingPayment, amount: int, fee: nat, session: nat, read: Meta)
    requires amount >= MINIMUM_CHECKOUT
    ensures GoodTerms(row.(checkout := Some(session),
                           meta := read.(platformFee := Some(fee), expected := Some(amount + fee))))
       <==> amount == row.amount
  {}

  /** An attached checkout is for the row's own amount. */
  predicate SameAmount(s: State, event: Event) {
    event.Attach? && event.p < |s.pendings| ==> event.amount == s.pendings[event.p].amount
  }

  /** Every other event keeps the terms of all rows, a clean-up that wipes the metadata included. */
  lemma CollectionKeepsTerms(s: State, event: Event)
    requires Sound(s) && TermsAgree(s) && SameAmount(s, event)
    ensures TermsAgree(Step(s, event).state)
  {
    if event.Initiate? { InitiateWritesPendings(s, event); }
  }

  /** A credited completion keeps the total worth exactly when the row's terms add up. */
  lemma CompletionConservesExactly(s: State, p: nat, lookup: Lookup, charge: nat, amount: int)
    requires CompletePayment(s, p, lookup, charge, amount).outcome.Credited?
    ensures Worth(CompletePayment(s, p, lookup, charge, amount).state) == Worth(s)
       <==> s.pendings[p].Expected() == s.pendings[p].amount + s.pendings[p].ServiceFee()
    ensures var t := CompletePayment(s, p, lookup, charge, amount).state;
            && |t.entries| == |s.entries| + 1
            && (Balances(t.entries[|s.entries|].lines)
               <==> s.pendings[p].Expected() == s.pendings[p].amount + s.pendings[p].ServiceFee())
  {
    CreditWorth(s, p, charge, amount);
    CollectionBalances(s.pendings[p].organization, amount, s.pendings[p].amount, s.pendings[p].ServiceFee());
  }
}
