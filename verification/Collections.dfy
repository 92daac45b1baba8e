/**
  Payments collected through Bachs: opening a checkout, completing it, and every
  event that may move a pending payment between statuses in between or afterwards.
 */
module Collections {
  import opened Tables
  import opened Books

  const MINIMUM_CHECKOUT := 10_000
  const CHECKOUT_MINUTES := 60
  const MAXIMUM_RETRIES := 3
  const MAX_SAFE_INTEGER := 9_007_199_254_740_991

  /** What the provider says about an earlier checkout session. */
  datatype Answer = StillOpen | HasExpired | WasCancelled | BeingConfirmed | Unreachable

  /** What a notification identifies a pending payment by. */
  datatype Lookup = Lookup(checkout: Option<nat>, id: Option<nat>, reference: Option<nat>)

  datatype Event =
    | DueAssigned(assignment: nat, amount: int)
    | Initiate(user: nat, organization: nat, due: Option<nat>, amount: int,
               reference: nat, fee: nat, now: int, answer: Answer)
    | Attach(p: nat, amount: int, fee: nat, session: nat, read: Meta)
    | Complete(p: nat, lookup: Lookup, charge: nat, amount: int)
    | Cancel(p: nat, caller: Option<nat>)
    | PollClosed(p: nat, user: nat, before: CheckoutStatus, expired: bool)
    | Cleanup(cutoff: int)
    | Retry(p: nat)
    | CollectionFailed(p: nat, checkout: Option<nat>)
    | CheckoutExpired(p: nat, checkout: Option<nat>)

  // ---------- Opening a checkout ----------

  predicate SamePurpose(row: PendingPayment, user: nat, organization: nat, due: Option<nat>) {
    row.user == user && row.organization == organization && row.due == due && row.status.Pending?
  }

  /** The newest PENDING row of the same user, organisation and due. */
  function FindReusable(rows: seq<PendingPayment>, user: nat, organization: nat, due: Option<nat>): (r: Option<nat>)
    ensures r.Some? ==> r.value < |rows| && SamePurpose(rows[r.value], user, organization, due)
  {
    if rows == [] then None
    else
      var last := |rows| - 1;
      var earlier := FindReusable(rows[..last], user, organization, due);
      if !SamePurpose(rows[last], user, organization, due) then earlier
      else if earlier.Some? && rows[earlier.value].createdAt > rows[last].createdAt then earlier
      else Some(last)
  }

  predicate ReferenceTaken(s: State, reference: nat) {
    exists p :: 0 <= p < |s.pendings| && s.pendings[p].reference == reference
  }

  /** The partial unique index: one PENDING row for each due assignment. */
  predicate DueBusy(s: State, due: Option<nat>, except: nat) {
    due.Some?
    && exists p :: 0 <= p < |s.pendings| && p != except && s.pendings[p].due == due && s.pendings[p].status.Pending?
  }

  function SetStatus(s: State, p: nat, status: CheckoutStatus): State
    requires p < |s.pendings|
  {
    s.(pendings := s.pendings[p := s.pendings[p].(status := status)])
  }

  /** Dues are assigned to students before anything is paid for them; a second assignment is skipped. */
  function AssignDue(s: State, due: nat, amount: int): Result {
    if due in s.dues then Result(s, Unchanged)
    else Result(s.(dues := s.dues[due := Assignment(amount, false, None)]), Done)
  }

  predicate DueRecorded(s: State, due: Option<nat>) {
    due.Some? && due.value in s.dues && s.dues[due.value].payment.Some?
  }

  function CreatePending(s: State, row: PendingPayment): Option<State> {
    if ReferenceTaken(s, row.reference) || DueBusy(s, row.due, |s.pendings|) then None
    else if row.due.Some? && row.due.value !in s.dues then None
    else Some(s.(pendings := s.pendings + [row]))
  }

  function NewPending(user: nat, organization: nat, due: Option<nat>, amount: int,
                      reference: nat, fee: nat, now: int): PendingPayment {
    PendingPayment(user, organization, due, amount, reference, CheckoutStatus.Pending, None, now,
                   Meta(Some(fee), Some(amount + fee), 0))
  }

  /** The row transaction of `initiatePayment`: reuse an open row, or close it and create a new one. */
  function InitiatePayment(s: State, user: nat, organization: nat, due: Option<nat>, amount: int, reference: nat,
                           fee: nat, now: int, answer: Answer): Result
  {
    if amount < MINIMUM_CHECKOUT || DueRecorded(s, due) then Result(s, Refused)
    else
      var existing := FindReusable(s.pendings, user, organization, due);
      var row := NewPending(user, organization, due, amount, reference, fee, now);
      if existing.None? then Created(s, CreatePending(s, row))
      else
        var p := existing.value;
        if now >= s.pendings[p].createdAt + CHECKOUT_MINUTES
        then Created(s, CreatePending(SetStatus(s, p, CheckoutStatus.Expired), row))
        else if s.pendings[p].checkout.None? || answer.StillOpen? then Result(s, Unchanged)
        else if answer.HasExpired? then Created(s, CreatePending(SetStatus(s, p, CheckoutStatus.Expired), row))
        else if answer.WasCancelled? then Created(s, CreatePending(SetStatus(s, p, CheckoutStatus.Cancelled), row))
        else Result(s, Refused)
  }

  /** A refused insert rolls the whole transaction back. */
  function Created(s: State, r: Option<State>): Result {
    if r.Some? then Result(r.value, Done) else Result(s, Refused)
  }

  /**
    After the provider opened a checkout for this call's amount, its terms are written over the
    metadata the call had read in its row transaction, whatever the row's metadata is by now.
   */
  function AttachCheckout(s: State, p: nat, amount: int, fee: nat, checkout: nat, read: Meta): Result {
    if p >= |s.pendings| || exists q :: 0 <= q < |s.pendings| && q != p && s.pendings[q].checkout == Some(checkout)
    then Result(s, Refused)
    else
      var row := s.pendings[p];
      Result(s.(pendings := s.pendings[p := row.(
                  checkout := Some(checkout),
                  meta := read.(platformFee := Some(fee), expected := Some(amount + fee)))]), Done)
  }

  // ---------- Completing a payment ----------

  predicate Identifies(lookup: Lookup, p: nat, row: PendingPayment) {
    || (lookup.checkout.Some? && row.checkout == lookup.checkout)
    || lookup.id == Some(p)
    || lookup.reference == Some(row.reference)
  }

  predicate AlreadyPaid(s: State, reference: nat) {
    exists k :: 0 <= k < |s.payments| && s.payments[k].reference == reference
  }

  predicate ChargeUsed(s: State, charge: nat) {
    exists k :: 0 <= k < |s.payments| && s.payments[k].charge == charge
  }

  /** Writes both balances of a wallet: the ledger account receives the wallet's new balance. */
  function CreditWallet(s: State, owner: Owner, amount: int): State
    requires owner in s.wallets
  {
    var wallet := s.wallets[owner];
    s.(wallets := s.wallets[owner := wallet.(balance := wallet.balance + amount, ledger := wallet.balance + amount)])
  }

  /** The wallets a completion touches, created when missing. */
  function WithWallets(s: State, organization: nat, fee: nat): (r: State)
    ensures Organization(organization) in r.wallets
    ensures fee > 0 ==> Platform in r.wallets
  {
    var s1 := EnsureWallet(s, Organization(organization));
    if fee > 0 then EnsureWallet(s1, Platform) else s1
  }

  /** The assignment a completion has to record a payment for: known and not yet paid. */
  predicate DueOpen(s: State, due: Option<nat>) {
    due.Some? && due.value in s.dues && !s.dues[due.value].paid
  }

  /** What is recorded as paid for an assignment so far. */
  function PaidTowards(assignment: Assignment): int {
    if assignment.payment.Some? then assignment.payment.value.amount else 0
  }

  /** The payment of an open assignment is recorded; the assignment is paid once the recorded amounts cover it. */
  function DuesWith(s: State, row: PendingPayment): map<nat, Assignment> {
    if !DueOpen(s, row.due) then s.dues
    else
      var assignment := s.dues[row.due.value];
      s.dues[row.due.value := Assignment(assignment.amount, PaidTowards(assignment) + row.amount >= assignment.amount,
                                         Some(DuePayment(row.amount, row.reference)))]
  }

  /** The writes of a completion whose checks have passed. */
  function CreditPayment(s: State, p: nat, charge: nat, settled: int): State
    requires p < |s.pendings|
  {
    var row := s.pendings[p];
    var fee := row.ServiceFee();
    var s1 := CreditWallet(WithWallets(s, row.organization, fee), Organization(row.organization), row.amount);
    var s2 := if fee > 0 then CreditWallet(s1, Platform, fee) else s1;
    s2.(settlement := s.settlement + settled,
        payments := s.payments + [Payment(row.reference, row.organization, row.amount, fee, charge)],
        entries := s.entries + [Entry(ForPayment(row.reference),
                                      CollectionLines(row.organization, settled, row.amount, fee), Posted, true)],
        pendings := s.pendings[p := row.(status := CheckoutStatus.Completed)],
        dues := DuesWith(s, row))
  }

  function CompletePayment(s: State, p: nat, lookup: Lookup, charge: nat, amount: int): Result {
    if p >= |s.pendings| || !Identifies(lookup, p, s.pendings[p]) then Result(s, Refused)
    else
      var row := s.pendings[p];
      if AlreadyPaid(s, row.reference) then Result(s, Unchanged)
      else if !row.status.Pending? then Result(s, Refused)
      else if !(0 < amount <= MAX_SAFE_INTEGER) || amount != row.Expected() then Result(s, Refused)
      else if row.checkout.Some? && lookup.checkout != row.checkout then Result(s, Refused)
      else WriteCompletion(s, p, charge, amount)
  }

  /** Creates missing wallets and credits, unless a wallet is inactive or a unique index objects. */
  function WriteCompletion(s: State, p: nat, charge: nat, amount: int): Result
    requires p < |s.pendings|
  {
    var row := s.pendings[p];
    var s1 := WithWallets(s, row.organization, row.ServiceFee());
    if !s1.wallets[Organization(row.organization)].active then Result(s, Refused)
    else if row.ServiceFee() > 0 && !s1.wallets[Platform].active then Result(s, Refused)
    else if ChargeUsed(s, charge) then Result(s, Refused)
    else if DueOpen(s, row.due) && DueRecorded(s, row.due) then Result(s, Refused)
    else Result(CreditPayment(s, p, charge, amount), Credited)
  }

  // ---------- Other events on a pending payment ----------

  function CancelPayment(s: State, p: nat, user: Option<nat>): Result {
    if p >= |s.pendings| || (user.Some? && s.pendings[p].user != user.value) || !s.pendings[p].status.Pending?
    then Result(s, Refused)
    else Result(SetStatus(s, p, CheckoutStatus.Cancelled), Done)
  }

  /** A status poll that finds the provider's session closed; `before` is the status before the provider was asked. */
  function PollClosedCheckout(s: State, p: nat, user: nat, before: CheckoutStatus, expired: bool): Result {
    if p >= |s.pendings| || s.pendings[p].user != user then Result(s, Refused)
    else if !before.Pending? || s.pendings[p].checkout.None? then Result(s, Unchanged)
    else Result(SetStatus(s, p, if expired then CheckoutStatus.Expired else CheckoutStatus.Cancelled), Done)
  }

  /** The cleanup job replaces the metadata, so the recorded fee and settlement are gone. */
  function Expire(row: PendingPayment, cutoff: int): PendingPayment {
    if row.status.Pending? && row.createdAt < cutoff
    then row.(status := CheckoutStatus.Expired, meta := Meta(None, None, 0))
    else row
  }

  function CleanupExpired(s: State, cutoff: int): Result {
    Result(s.(pendings := seq(|s.pendings|, p requires 0 <= p < |s.pendings| => Expire(s.pendings[p], cutoff))), Done)
  }

  function RetryFailed(s: State, p: nat): Result {
    if p >= |s.pendings| || !s.pendings[p].status.Failed? || s.pendings[p].meta.retries + 1 > MAXIMUM_RETRIES
       || DueBusy(s, s.pendings[p].due, p)
    then Result(s, Refused)
    else
      var row := s.pendings[p];
      Result(s.(pendings := s.pendings[p := row.(status := CheckoutStatus.Pending,
                                                 meta := row.meta.(retries := row.meta.retries + 1))]), Done)
  }

  /** The webhook handlers overwrite the status whatever it was; a missing checkout id filters nothing. */
  function OverwriteStatus(s: State, p: nat, checkout: Option<nat>, status: CheckoutStatus): Result {
    if p >= |s.pendings| || (checkout.Some? && s.pendings[p].checkout != checkout) then Result(s, Unchanged)
    else Result(SetStatus(s, p, status), Done)
  }

  function Step(s: State, event: Event): Result {
    match event
    case DueAssigned(assignment, amount) => AssignDue(s, assignment, amount)
    case Initiate(user, organization, due, amount, reference, fee, now, answer) =>
      InitiatePayment(s, user, organization, due, amount, reference, fee, now, answer)
    case Attach(p, amount, fee, checkout, read) => AttachCheckout(s, p, amount, fee, checkout, read)
    case Complete(p, lookup, charge, amount) => CompletePayment(s, p, lookup, charge, amount)
    case Cancel(p, user) => CancelPayment(s, p, user)
    case PollClosed(p, user, before, expired) => PollClosedCheckout(s, p, user, before, expired)
    case Cleanup(cutoff) => CleanupExpired(s, cutoff)
    case Retry(p) => RetryFailed(s, p)
    case CollectionFailed(p, checkout) => OverwriteStatus(s, p, checkout, CheckoutStatus.Failed)
    case CheckoutExpired(p, checkout) => OverwriteStatus(s, p, checkout, CheckoutStatus.Expired)
  }
}
