/**
  The services as they run: one object holding the tables, and one method per
  transaction that writes the rows in the order the code does. Each method is
  proved to end in exactly the state its step function gives; a method that
  refuses leaves every row as it found it.
 */
module MoneyStore {
  import opened Tables
  import opened Books
  import opened Charges
  import W = Withdrawals
  import C = Collections

  predicate Known(s: State, lines: seq<Line>) {
    forall line :: line in lines ==> HasAccount(s, line.account)
  }

  /** The tables after an entry and its first `i` lines were written. */
  function Written(s: State, source: Source, lines: seq<Line>, i: nat): State
    requires i <= |lines| && Known(s, lines[..i])
  {
    ApplyLines(s, lines[..i]).(entries := s.entries + [Entry(source, lines[..i], Posted, true)])
  }

  /** `t` is `s` with one more line on entry `e`. */
  predicate LineWritten(s: State, t: State, e: nat, line: Line) {
    && e < |s.entries| && HasAccount(s, line.account)
    && t == Adjust(s, line.account, Signed(line)).(entries :=
         s.entries[e := s.entries[e].(lines := s.entries[e].lines + [line])])
  }

  lemma OneMoreLine(s: State, source: Source, lines: seq<Line>, i: nat, t: State)
    requires i < |lines| && Known(s, lines[..i]) && LineWritten(Written(s, source, lines, i), t, |s.entries|, lines[i])
    ensures Known(s, lines[..i + 1]) && t == Written(s, source, lines, i + 1)
  {
    assert lines[..i + 1] == lines[..i] + [lines[i]];
    OneMoreApplied(s, lines[..i], lines[i]);
  }

  lemma OneMoreApplied(s: State, lines: seq<Line>, line: Line)
    requires Known(s, lines) && HasAccount(s, line.account)
    ensures Known(s, lines + [line])
    ensures ApplyLines(s, lines + [line]) == Adjust(ApplyLines(s, lines), line.account, Signed(line))
  {
    assert (lines + [line])[..|lines|] == lines;
  }

  class Store {
    var wallets: map<Owner, Wallet>
    var clearing: int
    var settlement: int
    var withdrawals: seq<Withdrawal>
    var holds: seq<Hold>
    var pendings: seq<PendingPayment>
    var payments: seq<Payment>
    var entries: seq<Entry>
    var dues: map<nat, Assignment>

    ghost function View(): State
      reads this
    {
      State(wallets, clearing, settlement, withdrawals, holds, pendings, payments, entries, dues)
    }

    constructor ()
      ensures View() == EMPTY
    {
      wallets, clearing, settlement := map[], 0, 0;
      withdrawals, holds, pendings, payments, entries := [], [], [], [], [];
      dues := map[];
    }

    // ---------- Wallets and accounts ----------

    method GetOrCreateWallet(owner: Owner) returns (wallet: Wallet)
      modifies this`wallets
      ensures View() == EnsureWallet(old(View()), owner)
      ensures owner in wallets && wallet == wallets[owner]
    {
      if owner !in wallets {
        wallets := wallets[owner := NEW_WALLET];
      }
      wallet := wallets[owner];
    }

    method IncrementAccount(account: Account, delta: int)
      requires HasAccount(View(), account)
      modifies this`wallets, this`clearing, this`settlement
      ensures View() == Adjust(old(View()), account, delta)
    {
      match account
      case BankClearing => clearing := clearing + delta;
      case BachsSettlement => settlement := settlement + delta;
      case WalletAccount(owner) =>
        wallets := wallets[owner := wallets[owner].(ledger := wallets[owner].ledger + delta)];
    }

    method IncrementBalance(owner: Owner, delta: int)
      requires owner in wallets
      modifies this`wallets
      ensures wallets == old(wallets)[owner := old(wallets[owner]).(balance := old(wallets[owner].balance) + delta)]
    {
      wallets := wallets[owner := wallets[owner].(balance := wallets[owner].balance + delta)];
    }

    /** The wallet row and then its ledger account. */
    method MoveMoney(owner: Owner, delta: int)
      requires owner in wallets
      modifies this`wallets
      ensures View() == Move(old(View()), owner, delta)
    {
      IncrementBalance(owner, delta);
      wallets := wallets[owner := wallets[owner].(ledger := wallets[owner].ledger + delta)];
    }

    method SetHeld(owner: Owner, held: int)
      requires owner in wallets
      modifies this`wallets
      ensures wallets == old(wallets)[owner := old(wallets[owner]).(held := held)]
    {
      wallets := wallets[owner := wallets[owner].(held := held)];
    }

    // ---------- The journal ----------

    /** Adds the lines up, then writes the entry and its lines unless debits and credits differ. */
    method CreateJournalEntry(source: Source, lines: seq<Line>) returns (id: Option<nat>)
      modifies this`wallets, this`clearing, this`settlement, this`entries
      ensures match CreateEntry(old(View()), source, lines)
              case Some(s) => View() == s && id == Some(old(|entries|))
              case None => View() == old(View()) && id == None
    {
      var totalDebits, totalCredits := 0, 0;
      for i := 0 to |lines|
        invariant View() == old(View())
        invariant totalDebits == Sum(lines[..i], Debits) && totalCredits == Sum(lines[..i], Credits)
      {
        SumAppend(lines[..i], lines[i], Debits);
        SumAppend(lines[..i], lines[i], Credits);
        assert lines[..i] + [lines[i]] == lines[..i + 1];
        if lines[i].side.Debit? {
          totalDebits := totalDebits + lines[i].amount;
        } else {
          totalCredits := totalCredits + lines[i].amount;
        }
      }
      assert lines[..|lines|] == lines;
      if totalDebits != totalCredits {
        return None;
      }
      id := WriteEntry(source, lines);
      assert lines[..|lines|] == lines;
    }

    /** One line of an entry and its account's balance; refused when there is no such account. */
    method WriteLine(entry: nat, line: Line) returns (ok: bool)
      requires entry < |entries|
      modifies this`wallets, this`clearing, this`settlement, this`entries
      ensures ok == HasAccount(old(View()), line.account)
      ensures if ok then LineWritten(old(View()), View(), entry, line) else View() == old(View())
    {
      if line.account.WalletAccount? && line.account.owner !in wallets {
        return false;
      }
      entries := entries[entry := entries[entry].(lines := entries[entry].lines + [line])];
      IncrementAccount(line.account, if line.side.Debit? then line.amount else -line.amount);
      return true;
    }

    /** The entry row, then its lines one by one; a missing account rolls everything back. */
    method WriteEntry(source: Source, lines: seq<Line>) returns (id: Option<nat>)
      modifies this`wallets, this`clearing, this`settlement, this`entries
      ensures Known(old(View()), lines)
           ==> View() == Written(old(View()), source, lines, |lines|) && id == Some(old(|entries|))
      ensures !Known(old(View()), lines) ==> View() == old(View()) && id == None
    {
      ghost var before := View();
      var savedWallets, savedClearing, savedSettlement, savedEntries := wallets, clearing, settlement, entries;
      entries := entries + [Entry(source, [], Posted, true)];
      for i := 0 to |lines|
        invariant Known(before, lines[..i])
        invariant View() == Written(before, source, lines, i)
      {
        assert ApplyLines(before, lines[..i]).wallets.Keys == before.wallets.Keys;
        var ok := WriteLine(|savedEntries|, lines[i]);
        if !ok {
          assert lines[i] in lines;
          wallets, clearing, settlement, entries := savedWallets, savedClearing, savedSettlement, savedEntries;
          return None;
        }
        OneMoreLine(before, source, lines, i, View());
      }
      assert lines[..|lines|] == lines;
      return Some(|savedEntries|);
    }

    method FindJournalEntry(source: Source) returns (id: Option<nat>)
      ensures id == FindEntry(entries, source)
    {
      id := None;
      for i := 0 to |entries|
        invariant id == FindEntry(entries[..i], source)
      {
        assert entries[..i + 1][..i] == entries[..i];
        if entries[i].source == source {
          id := Some(i);
        }
      }
      assert entries[..|entries|] == entries;
    }

    method CreateOrReuseWithdrawalJournal(w: nat, lines: seq<Line>) returns (id: Option<nat>)
      modifies this`wallets, this`clearing, this`settlement, this`entries
      ensures match W.CreateOrReuseEntry(old(View()), w, lines)
              case Some((s, e)) => View() == s && id == Some(e)
              case None => View() == old(View()) && id == None
    {
      var existing := FindJournalEntry(ForWithdrawal(w));
      if existing.None? {
        id := CreateJournalEntry(ForWithdrawal(w), lines);
      } else if W.MatchesLines(entries[existing.value], lines) {
        id := existing;
      } else {
        id := None;
      }
    }

    // ---------- Withdrawals ----------

    method RequestWithdrawal(policy: FeePolicy, user: nat, owner: Owner, amount: int) returns (outcome: Outcome)
      modifies this
      ensures Result(View(), outcome) == W.RequestWithdrawal(policy, old(View()), user, owner, amount)
    {
      if amount < MINIMUM_WITHDRAWAL {
        return Refused;
      }
      var wallet := GetOrCreateWallet(owner);
      var fee := Fee(policy, W.FixedFee(owner), amount);
      var totalAmount := amount + fee;
      if wallet.balance - wallet.held < totalAmount {
        return Refused;
      }
      var w := |withdrawals|;
      withdrawals := withdrawals + [W.NewWithdrawal(user, owner, amount, fee)];
      holds := holds + [Hold(owner, totalAmount, w, owner.Platform?, true)];
      SetHeld(owner, wallet.held + totalAmount);
      return Done;
    }

    method SettleWithdrawal(w: nat, platformText: bool) returns (outcome: Outcome)
      modifies this
      ensures Result(View(), outcome) == W.SettleWithdrawal(old(View()), w, platformText)
    {
      if w >= |withdrawals| || !withdrawals[w].status.Pending? || withdrawals[w].wallet !in wallets {
        return Refused;
      }
      ghost var before := View();
      var saved := withdrawals;
      var row := withdrawals[w];
      var total := row.Cost();
      withdrawals := withdrawals[w := row.(status := PayoutStatus.Processing)];
      assert View() == before.(withdrawals := withdrawals);
      SettleIgnoresRows(before, w, withdrawals, PayoutLines(row.wallet, total));
      var entry := CreateOrReuseWithdrawalJournal(w, PayoutLines(row.wallet, total));
      if entry.None? {
        withdrawals := saved;
        return Refused;
      }
      assert row.wallet in before.wallets.Keys;
      DebitReserved(w, entry.value, platformText);
      return Debited;
    }

    /** The rest of the settlement: the row's entry, its hold, and the wallet. */
    method DebitReserved(w: nat, entry: nat, platformText: bool)
      requires w < |withdrawals| && withdrawals[w].wallet in wallets
      modifies this
      ensures var s := old(View());
              var row, wallet := s.withdrawals[w], s.wallets[s.withdrawals[w].wallet];
              View() == s.(
                withdrawals := s.withdrawals[w := row.(entry := Some(entry), submitting := true)],
                holds := W.ReleaseHolds(s.holds, w, row.wallet, Some(platformText)),
                wallets := s.wallets[row.wallet := wallet.(
                  balance := wallet.balance - row.Cost(), held := Max(0, wallet.held - row.Cost()))])
    {
      var row := withdrawals[w];
      var wallet := wallets[row.wallet];
      withdrawals := withdrawals[w := row.(entry := Some(entry), submitting := true)];
      holds := W.ReleaseHolds(holds, w, row.wallet, Some(platformText));
      wallets := wallets[row.wallet :=
          wallet.(balance := wallet.balance - row.Cost(), held := Max(0, wallet.held - row.Cost()))];
    }

    method ApprovePlatformWithdrawal(w: nat, admin: nat, allowSelf: bool) returns (outcome: Outcome)
      modifies this
      ensures Result(View(), outcome) == W.ApproveWithdrawal(old(View()), w, admin, allowSelf)
    {
      if w < |withdrawals| && withdrawals[w].user == admin && withdrawals[w].wallet.Platform? && !allowSelf {
        return Refused;
      }
      outcome := SettleWithdrawal(w, true);
    }

    /** The second transaction of an organisation's submission: post the platform's share, then the row. */
    method SubmitOrganizationPayout(w: nat, payout: Option<nat>, providerFee: int) returns (outcome: Outcome)
      requires w < |withdrawals|
      modifies this
      ensures Result(View(), outcome) == W.SubmitOrganizationPayout(old(View()), w, payout, providerFee)
    {
      var row := withdrawals[w];
      var platformFee := Max(0, row.fee - providerFee);
      var shareEntry := row.shareEntry;
      if platformFee > 0 && !row.feeSplit {
        shareEntry := PostShare(w, platformFee);
        if shareEntry.None? {
          return Refused;
        }
      }
      withdrawals := withdrawals[w := row.(
        payout := payout, share := platformFee, providerFee := Some(providerFee), feeSplit := true,
        shareEntry := shareEntry, submitting := false)];
      return Done;
    }

    /** The entry of the platform's share, and its wallet. */
    method PostShare(w: nat, share: int) returns (entry: Option<nat>)
      modifies this`wallets, this`clearing, this`settlement, this`entries
      ensures match CreateEntry(EnsureWallet(old(View()), Platform), ForFeeShare(w), ShareLines(share))
              case None => entry.None? && View() == old(View())
              case Some(s) =>
                && Platform in s.wallets && entry == Some(old(|entries|))
                && View() == s.(wallets := s.wallets[Platform := s.wallets[Platform].(
                                  balance := s.wallets[Platform].balance + share)])
    {
      var savedWallets := wallets;
      var platform := GetOrCreateWallet(Platform);
      entry := CreateJournalEntry(ForFeeShare(w), ShareLines(share));
      if entry.None? {
        wallets := savedWallets;
        return;
      }
      assert Platform in wallets.Keys;
      IncrementBalance(Platform, share);
    }

    /** The second transaction of a user's or the platform's submission: correct the fee everywhere it was written. */
    method SubmitPlainPayout(w: nat, payout: Option<nat>, providerFee: int) returns (outcome: Outcome)
      requires w < |withdrawals|
      modifies this
      ensures Result(View(), outcome) == W.SubmitPlainPayout(old(View()), w, payout, providerFee)
    {
      var row := withdrawals[w];
      var feeDifference := providerFee - row.fee;
      if feeDifference != 0 {
        if row.wallet !in wallets {
          return Refused;
        }
        MoveMoney(row.wallet, -feeDifference);
        IncrementAccount(BankClearing, feeDifference);
        if row.entry.Some? && row.entry.value < |entries| {
          entries := entries[row.entry.value := W.Reprice(entries[row.entry.value], row.amount + providerFee)];
        }
      }
      withdrawals := withdrawals[w := row.(payout := payout, fee := providerFee, submitting := false)];
      return Done;
    }

    method SubmitPayout(w: nat, payout: Option<nat>, reported: Option<nat>) returns (outcome: Outcome)
      modifies this
      ensures Result(View(), outcome) == W.SubmitPayout(old(View()), w, payout, reported)
    {
      if w >= |withdrawals| || !withdrawals[w].submitting {
        return Refused;
      }
      if payout.Some? && exists v :: 0 <= v < |withdrawals| && v != w && withdrawals[v].payout == payout {
        return Refused;
      }
      var providerFee := W.ProviderFee(withdrawals[w], reported);
      if withdrawals[w].wallet.Organization? {
        outcome := SubmitOrganizationPayout(w, payout, providerFee);
      } else {
        outcome := SubmitPlainPayout(w, payout, providerFee);
      }
    }

    method ReverseJournalEntry(id: Option<nat>)
      modifies this`entries
      ensures entries == W.ReverseEntry(old(entries), id)
    {
      if id.Some? && id.value < |entries| {
        entries := entries[id.value := entries[id.value].(status := Reversed)];
      }
    }

    method ReverseOrganizationWithdrawalPlatformFee(w: nat, row: Withdrawal)
      modifies this`wallets, this`clearing, this`settlement, this`entries
      ensures View() == W.ReverseShare(old(View()), w, row)
    {
      if !row.feeSplit || row.share <= 0 {
        return;
      }
      var allocation := if row.shareEntry.Some? then row.shareEntry else W.FindPostedShare(entries, w);
      ReverseJournalEntry(allocation);
      if Platform in wallets {
        MoveMoney(Platform, -row.share);
      }
      IncrementAccount(BankClearing, row.share);
    }

    /** The refund shared by compensation and the failed-payout webhook. */
    method RefundWithdrawal(w: nat, row: Withdrawal)
      requires row.wallet in wallets
      modifies this`wallets, this`clearing, this`settlement, this`entries
      ensures View() == W.Refund(old(View()), w, row)
    {
      MoveMoney(row.wallet, row.Cost());
      IncrementAccount(BankClearing, -row.Cost());
      ReverseJournalEntry(row.entry);
      ReverseOrganizationWithdrawalPlatformFee(w, row);
    }

    method CompensateFailedPayoutSubmission(w: nat) returns (outcome: Outcome)
      modifies this
      ensures Result(View(), outcome) == W.CompensateWithdrawal(old(View()), w)
    {
      if w >= |withdrawals| || !withdrawals[w].submitting {
        return Refused;
      }
      var row := withdrawals[w].(submitting := false);
      if !row.status.Processing? || row.payout.Some? {
        withdrawals := withdrawals[w := row];
        return Unchanged;
      }
      if row.wallet !in wallets {
        return Refused;
      }
      withdrawals := withdrawals[w := row.(status := PayoutStatus.Failed)];
      RefundWithdrawal(w, row);
      return Refunded;
    }

    method RejectUserWithdrawal(w: nat) returns (outcome: Outcome)
      modifies this
      ensures Result(View(), outcome) == W.RejectWithdrawal(old(View()), w)
    {
      if w >= |withdrawals| || !withdrawals[w].status.Pending? || withdrawals[w].wallet !in wallets {
        return Refused;
      }
      var row := withdrawals[w];
      withdrawals := withdrawals[w := row.(status := PayoutStatus.Failed)];
      holds := W.ReleaseHolds(holds, w, row.wallet, None);
      SetHeld(row.wallet, Max(0, wallets[row.wallet].held - row.Cost()));
      return Done;
    }

    method HandleWithdrawalSucceeded(w: nat) returns (outcome: Outcome)
      modifies this`withdrawals
      ensures Result(View(), outcome) == W.CompletePayout(old(View()), w)
    {
      if w >= |withdrawals| {
        return Refused;
      }
      if withdrawals[w].status.Completed? {
        return Unchanged;
      }
      if !withdrawals[w].status.Processing? {
        return Refused;
      }
      withdrawals := withdrawals[w := withdrawals[w].(status := PayoutStatus.Completed)];
      return Done;
    }

    method HandleWithdrawalFailed(w: nat) returns (outcome: Outcome)
      modifies this
      ensures Result(View(), outcome) == W.FailPayout(old(View()), w)
    {
      if w >= |withdrawals| || withdrawals[w].wallet !in wallets {
        return Refused;
      }
      var row := withdrawals[w];
      if row.status.Failed? {
        return Unchanged;
      }
      var wasDebited := row.status.Processing?;
      withdrawals := withdrawals[w := row.(status := PayoutStatus.Failed)];
      holds := W.ReleaseHolds(holds, w, row.wallet, Some(false));
      SetHeld(row.wallet, Max(0, wallets[row.wallet].held - row.Cost()));
      if wasDebited {
        RefundWithdrawal(w, row);
        return Refunded;
      }
      ReverseJournalEntry(row.entry);
      ReverseOrganizationWithdrawalPlatformFee(w, row);
      return Done;
    }

    method HandleWithdrawalPending(w: nat) returns (outcome: Outcome)
      modifies this`withdrawals
      ensures Result(View(), outcome) == W.MarkPayoutPending(old(View()), w)
    {
      if w >= |withdrawals| {
        return Refused;
      }
      if withdrawals[w].status.Completed? || withdrawals[w].status.Failed? {
        return Unchanged;
      }
      withdrawals := withdrawals[w := withdrawals[w].(status := PayoutStatus.Processing)];
      return Done;
    }

    // ---------- Collections ----------

    method InitiatePayment(user: nat, organization: nat, due: Option<nat>, amount: int, reference: nat,
                           fee: nat, now: int, answer: C.Answer) returns (outcome: Outcome, p: nat)
      modifies this`pendings
      ensures Result(View(), outcome)
           == C.InitiatePayment(old(View()), user, organization, due, amount, reference, fee, now, answer)
      ensures outcome != Refused ==> p < |pendings| && C.SamePurpose(pendings[p], user, organization, due)
    {
      p := |pendings|;
      if amount < C.MINIMUM_CHECKOUT {
        return Refused, p;
      }
      if due.Some? && due.value in dues && dues[due.value].payment.Some? {
        return Refused, p;
      }
      var existing := C.FindReusable(pendings, user, organization, due);
      var newRow := C.NewPending(user, organization, due, amount, reference, fee, now);
      if existing.None? {
        var created := CreatePendingPayment(newRow);
        outcome := if created then Done else Refused;
        return;
      }
      var row := pendings[existing.value];
      if now >= row.createdAt + C.CHECKOUT_MINUTES {
        outcome := ReplacePendingPayment(existing.value, CheckoutStatus.Expired, newRow);
      } else if row.checkout.None? || answer.StillOpen? {
        return Unchanged, existing.value;
      } else if answer.HasExpired? {
        outcome := ReplacePendingPayment(existing.value, CheckoutStatus.Expired, newRow);
      } else if answer.WasCancelled? {
        outcome := ReplacePendingPayment(existing.value, CheckoutStatus.Cancelled, newRow);
      } else {
        return Refused, p;
      }
    }

    /** Closes an earlier checkout and inserts a new one; a refused insert rolls both back. */
    method ReplacePendingPayment(existing: nat, status: CheckoutStatus, row: PendingPayment) returns (outcome: Outcome)
      requires existing < |pendings|
      modifies this`pendings
      ensures Result(View(), outcome)
           == C.Created(old(View()), C.CreatePending(C.SetStatus(old(View()), existing, status), row))
      ensures outcome != Refused ==> |pendings| == old(|pendings|) + 1 && pendings[old(|pendings|)] == row
    {
      var saved := pendings;
      pendings := pendings[existing := pendings[existing].(status := status)];
      var created := CreatePendingPayment(row);
      if !created {
        pendings := saved;
      }
      outcome := if created then Done else Refused;
    }

    /** The insert, subject to the unique reference and the one-active-checkout-per-due index. */
    method CreatePendingPayment(row: PendingPayment) returns (created: bool)
      modifies this`pendings
      ensures match C.CreatePending(old(View()), row)
              case Some(s) => created && View() == s && pendings == old(pendings) + [row]
              case None => !created && View() == old(View())
    {
      if (exists q :: 0 <= q < |pendings| && pendings[q].reference == row.reference)
         || (row.due.Some?
             && exists q :: 0 <= q < |pendings| && pendings[q].due == row.due && pendings[q].status.Pending?) {
        return false;
      }
      if row.due.Some? && row.due.value !in dues {
        return false;
      }
      pendings := pendings + [row];
      return true;
    }

    /** `read` is the caller's copy of the metadata, from its row transaction before the provider was asked. */
    method AttachCheckout(p: nat, amount: int, fee: nat, session: nat, read: Meta) returns (outcome: Outcome)
      modifies this`pendings
      ensures Result(View(), outcome) == C.AttachCheckout(old(View()), p, amount, fee, session, read)
    {
      if p >= |pendings| || exists q :: 0 <= q < |pendings| && q != p && pendings[q].checkout == Some(session) {
        return Refused;
      }
      var row := pendings[p];
      pendings := pendings[p := row.(
        checkout := Some(session), meta := read.(platformFee := Some(fee), expected := Some(amount + fee)))];
      return Done;
    }

    method CompletePayment(p: nat, lookup: C.Lookup, charge: nat, amount: int) returns (outcome: Outcome)
      modifies this
      ensures Result(View(), outcome) == C.CompletePayment(old(View()), p, lookup, charge, amount)
    {
      if p >= |pendings| || !C.Identifies(lookup, p, pendings[p]) {
        return Refused;
      }
      var row := pendings[p];
      if exists k :: 0 <= k < |payments| && payments[k].reference == row.reference {
        return Unchanged;
      }
      if !row.status.Pending? {
        return Refused;
      }
      if amount <= 0 || amount > C.MAX_SAFE_INTEGER || amount != row.Expected() {
        return Refused;
      }
      if row.checkout.Some? && lookup.checkout != row.checkout {
        return Refused;
      }
      outcome := WriteCompletion(p, charge, amount);
    }

    method WriteCompletion(p: nat, charge: nat, amount: int) returns (outcome: Outcome)
      requires p < |pendings|
      modifies this
      ensures Result(View(), outcome) == C.WriteCompletion(old(View()), p, charge, amount)
    {
      var row := pendings[p];
      var saved := wallets;
      var active := PrepareWallets(row.organization, row.ServiceFee());
      if !active || exists k :: 0 <= k < |payments| && payments[k].charge == charge {
        wallets := saved;
        return Refused;
      }
      if row.due.Some? && row.due.value in dues && !dues[row.due.value].paid && dues[row.due.value].payment.Some? {
        wallets := saved;
        return Refused;
      }
      CreditPayment(p, charge, amount);
      return Credited;
    }

    /** Creates missing wallets and says whether the ones to be credited are active. */
    method PrepareWallets(organization: nat, fee: nat) returns (active: bool)
      modifies this`wallets
      ensures View() == C.WithWallets(old(View()), organization, fee)
      ensures active <==> wallets[Organization(organization)].active && (fee > 0 ==> wallets[Platform].active)
    {
      var wallet := GetOrCreateWallet(Organization(organization));
      active := wallet.active;
      if fee > 0 {
        var platform := GetOrCreateWallet(Platform);
        active := active && platform.active;
      }
    }

    method CreditWallet(owner: Owner, amount: int)
      requires owner in wallets
      modifies this`wallets
      ensures View() == C.CreditWallet(old(View()), owner, amount)
    {
      var wallet := wallets[owner];
      var balanceAfter := wallet.balance + amount;
      wallets := wallets[owner := wallet.(balance := balanceAfter)];
      wallets := wallets[owner := wallets[owner].(ledger := balanceAfter)];
    }

    method CreditPayment(p: nat, charge: nat, settled: int)
      requires p < |pendings|
      requires Organization(pendings[p].organization) in wallets
          && (pendings[p].ServiceFee() > 0 ==> Platform in wallets)
      modifies this
      ensures View() == C.CreditPayment(old(View()), p, charge, settled)
    {
      var row := pendings[p];
      var fee := row.ServiceFee();
      CreditWallet(Organization(row.organization), row.amount);
      if fee > 0 {
        CreditWallet(Platform, fee);
      }
      settlement := settlement + settled;
      payments := payments + [Payment(row.reference, row.organization, row.amount, fee, charge)];
      entries := entries + [Entry(ForPayment(row.reference),
                                  CollectionLines(row.organization, settled, row.amount, fee), Posted, true)];
      RecordDuePayment(row);
      pendings := pendings[p := row.(status := CheckoutStatus.Completed)];
    }

    /** The due payment of an open assignment, and the assignment itself once it is covered. */
    method RecordDuePayment(row: PendingPayment)
      modifies this`dues
      ensures dues == C.DuesWith(old(View()), row)
    {
      if row.due.None? || row.due.value !in dues || dues[row.due.value].paid {
        return;
      }
      var assignment := dues[row.due.value];
      var totalPaid := C.PaidTowards(assignment);
      var isFullyPaid := totalPaid + row.amount >= assignment.amount;
      dues := dues[row.due.value := assignment.(payment := Some(DuePayment(row.amount, row.reference)))];
      if isFullyPaid {
        dues := dues[row.due.value := dues[row.due.value].(paid := true)];
      }
    }

    /** `createMany` with duplicates skipped, for one assignment. */
    method AssignDue(due: nat, amount: int) returns (outcome: Outcome)
      modifies this`dues
      ensures Result(View(), outcome) == C.AssignDue(old(View()), due, amount)
    {
      if due in dues {
        return Unchanged;
      }
      dues := dues[due := Assignment(amount, false, None)];
      return Done;
    }

    method CancelPendingPayment(p: nat, caller: Option<nat>) returns (outcome: Outcome)
      modifies this`pendings
      ensures Result(View(), outcome) == C.CancelPayment(old(View()), p, caller)
    {
      if p >= |pendings| || (caller.Some? && pendings[p].user != caller.value) || !pendings[p].status.Pending? {
        return Refused;
      }
      pendings := pendings[p := pendings[p].(status := CheckoutStatus.Cancelled)];
      return Done;
    }

    method PollClosedCheckout(p: nat, user: nat, before: CheckoutStatus, expired: bool) returns (outcome: Outcome)
      modifies this`pendings
      ensures Result(View(), outcome) == C.PollClosedCheckout(old(View()), p, user, before, expired)
    {
      if p >= |pendings| || pendings[p].user != user {
        return Refused;
      }
      if !before.Pending? || pendings[p].checkout.None? {
        return Unchanged;
      }
      pendings := pendings[p :=
          pendings[p].(status := if expired then CheckoutStatus.Expired else CheckoutStatus.Cancelled)];
      return Done;
    }

    method CleanupExpiredPayments(cutoff: int) returns (outcome: Outcome)
      modifies this`pendings
      ensures Result(View(), outcome) == C.CleanupExpired(old(View()), cutoff)
    {
      pendings := seq(|pendings|, p requires 0 <= p < |pendings| reads this => C.Expire(pendings[p], cutoff));
      return Done;
    }

    method RetryFailedPayment(p: nat) returns (outcome: Outcome)
      modifies this`pendings
      ensures Result(View(), outcome) == C.RetryFailed(old(View()), p)
    {
      if p >= |pendings| || !pendings[p].status.Failed? {
        return Refused;
      }
      var row := pendings[p];
      var retryCount := row.meta.retries + 1;
      if retryCount > C.MAXIMUM_RETRIES
         || (row.due.Some?
             && exists q :: && 0 <= q < |pendings| && q != p
                            && pendings[q].due == row.due && pendings[q].status.Pending?) {
        return Refused;
      }
      pendings := pendings[p := row.(status := CheckoutStatus.Pending, meta := row.meta.(retries := retryCount))];
      return Done;
    }

    method HandleClosedCheckout(p: nat, checkout: Option<nat>, status: CheckoutStatus) returns (outcome: Outcome)
      modifies this`pendings
      ensures Result(View(), outcome) == C.OverwriteStatus(old(View()), p, checkout, status)
    {
      if p >= |pendings| || (checkout.Some? && pendings[p].checkout != checkout) {
        return Unchanged;
      }
      pendings := pendings[p := pendings[p].(status := status)];
      return Done;
    }
  }

  /** Writing the journal neither reads nor writes the withdrawal rows. */
  lemma SettleIgnoresRows(s: State, w: nat, rows: seq<Withdrawal>, lines: seq<Line>)
    ensures W.CreateOrReuseEntry(s.(withdrawals := rows), w, lines)
         == match W.CreateOrReuseEntry(s, w, lines)
            case Some((t, e)) => Some((t.(withdrawals := rows), e))
            case None => None
  {
    LinesIgnoreRows(s, rows, lines);
  }

  lemma {:induction false} LinesIgnoreRows(s: State, rows: seq<Withdrawal>, lines: seq<Line>)
    ensures Known(s.(withdrawals := rows), lines) <==> Known(s, lines)
    ensures Known(s, lines) ==> ApplyLines(s.(withdrawals := rows), lines) == ApplyLines(s, lines).(withdrawals := rows)
  {
    assert forall line :: line in lines ==>
             (HasAccount(s.(withdrawals := rows), line.account) <==> HasAccount(s, line.account));
    if lines != [] && Known(s, lines) {
      var last := |lines| - 1;
      LinesIgnoreRows(s, rows, lines[..last]);
      assert ApplyLines(s, lines[..last]).wallets.Keys == s.wallets.Keys;
      assert HasAccount(s, lines[last].account);
      AdjustIgnoresRows(ApplyLines(s, lines[..last]), rows, lines[last].account, Signed(lines[last]));
    }
  }

  lemma AdjustIgnoresRows(s: State, rows: seq<Withdrawal>, account: Account, delta: int)
    requires HasAccount(s, account)
    ensures Adjust(s.(withdrawals := rows), account, delta) == Adjust(s, account, delta).(withdrawals := rows)
  {}
}
