/** The image limits of a ledger: what the exporter refuses to write and what the
    importer refuses to restore. */
module ImageQuota {
  import opened Bytes
  import opened Sums

  const MAX_IMAGES_PER_TRANSACTION: nat := 10
  const MAX_IMAGE_BYTES_PER_TRANSACTION: nat := 20 * 1024 * 1024
  const MAX_IMAGE_BYTES_PER_ACCOUNT: nat := 128 * 1024 * 1024
  const MAX_IMAGE_BYTES_DATABASE: nat := 256 * 1024 * 1024
  const MAX_ARCHIVED_IMAGES_PER_TRANSACTION: nat := 1_000
  const MAX_ARCHIVED_IMAGES_DATABASE: nat := 100_000

  /** What the limits look at in an image. */
  datatype Shot = Shot(tx: int, size: nat, legacy: bool)

  function One(tx: int): Shot -> nat { (s: Shot) => if s.tx == tx then 1 else 0 }

  function Size(tx: int): Shot -> nat { (s: Shot) => if s.tx == tx then s.size else 0 }

  function Legacy(tx: int): Shot -> nat { (s: Shot) => if s.tx == tx && s.legacy then 1 else 0 }

  function Normal(tx: int): Shot -> nat { (s: Shot) => if s.tx == tx && !s.legacy then 1 else 0 }

  function NormalSize(tx: int): Shot -> nat { (s: Shot) => if s.tx == tx && !s.legacy then s.size else 0 }

  function AnyLegacy(): Shot -> nat { (s: Shot) => if s.legacy then 1 else 0 }

  function AnySize(): Shot -> nat { (s: Shot) => s.size }

  function AccountSize(accounts: map<int, Data>, account: Data): Shot -> nat {
    (s: Shot) => if s.tx in accounts && accounts[s.tx] == account then s.size else 0
  }

  /** More images than a transaction may have today. */
  predicate OverQuota(shots: seq<Shot>, tx: int) {
    Tally(shots, One(tx)) > MAX_IMAGES_PER_TRANSACTION || Tally(shots, Size(tx)) > MAX_IMAGE_BYTES_PER_TRANSACTION
  }

  // ----- the exporter's limits -----

  /** The images of a transaction over its quota all go as archived ones. */
  ghost predicate ArchivesOverQuota(shots: seq<Shot>) {
    forall k :: 0 <= k < |shots| && OverQuota(shots, shots[k].tx) ==> shots[k].legacy
  }

  ghost predicate AccountsFit(shots: seq<Shot>, accounts: map<int, Data>) {
    forall account :: Tally(shots, AccountSize(accounts, account)) <= 134_217_728
  }

  ghost predicate LegacyFits(shots: seq<Shot>) {
    && Tally(shots, AnyLegacy()) <= 100_000
    && forall tx :: Tally(shots, Legacy(tx)) <= 1_000
  }

  ghost predicate Restorable(shots: seq<Shot>, accounts: map<int, Data>) {
    LegacyFits(shots) && AccountsFit(shots, accounts) && Tally(shots, AnySize()) <= 268_435_456
  }

  // ----- the importer's quota -----

  /** A transaction with an archived image has at most a thousand images of both kinds; one
      with a normal image keeps its normal ones within today's quota. */
  ghost predicate TransactionFits(shots: seq<Shot>, tx: int) {
    && (Tally(shots, Legacy(tx)) > 0 ==> Tally(shots, One(tx)) <= MAX_ARCHIVED_IMAGES_PER_TRANSACTION)
    && (Tally(shots, Normal(tx)) > 0 ==>
          Tally(shots, Normal(tx)) <= MAX_IMAGES_PER_TRANSACTION
          && Tally(shots, NormalSize(tx)) <= MAX_IMAGE_BYTES_PER_TRANSACTION)
  }

  ghost predicate QuotaAdmits(shots: seq<Shot>, accounts: map<int, Data>) {
    && (forall tx :: TransactionFits(shots, tx))
    && Tally(shots, AnyLegacy()) <= 100_000
    && AccountsFit(shots, accounts)
    && Tally(shots, AnySize()) <= MAX_IMAGE_BYTES_DATABASE
  }

  lemma {:induction false} OverQuotaFits(shots: seq<Shot>, tx: int)
    requires ArchivesOverQuota(shots) && LegacyFits(shots) && OverQuota(shots, tx)
    ensures TransactionFits(shots, tx)
  {
    forall k | 0 <= k < |shots| ensures Normal(tx)(shots[k]) == 0 && One(tx)(shots[k]) == Legacy(tx)(shots[k]) {
    }
    TallyNothing(shots, Normal(tx));
    TallyAgrees(shots, One(tx), shots, Legacy(tx));
  }

  lemma {:induction false} WithinQuotaFits(shots: seq<Shot>, tx: int)
    requires !OverQuota(shots, tx)
    ensures TransactionFits(shots, tx)
  {
    TallyAtMost(shots, Normal(tx), shots, One(tx));
    TallyAtMost(shots, NormalSize(tx), shots, Size(tx));
  }

  /** Whatever the exporter writes, the importer's quota admits. */
  lemma {:induction false} RestorableIsAdmitted(shots: seq<Shot>, accounts: map<int, Data>)
    requires ArchivesOverQuota(shots) && Restorable(shots, accounts)
    ensures QuotaAdmits(shots, accounts)
  {
    forall tx ensures TransactionFits(shots, tx) {
      if OverQuota(shots, tx) { OverQuotaFits(shots, tx); } else { WithinQuotaFits(shots, tx); }
    }
  }

  // ----- the exporter's running checks -----

  /** The images come grouped by transaction. */
  ghost predicate Grouped(shots: seq<Shot>) {
    forall i, j :: 0 <= i < j < |shots| ==> shots[i].tx <= shots[j].tx
  }

  ghost predicate LastLegacy(shots: seq<Shot>, k: nat, current: int) {
    forall i :: 0 <= i < k && i < |shots| && shots[i].legacy ==> shots[i].tx <= current
  }

  lemma {:induction false} FirstOfTransaction(shots: seq<Shot>, k: nat, current: int)
    requires k < |shots| && LastLegacy(shots, k, current) && current < shots[k].tx
    ensures Tally(shots[..k], Legacy(shots[k].tx)) == 0
  {
    forall i | 0 <= i < k ensures Legacy(shots[k].tx)(shots[..k][i]) == 0 {
    }
    TallyNothing(shots[..k], Legacy(shots[k].tx));
  }

  /** Counting archived images in one pass, the count per transaction starting again when
      the transaction changes, refuses exactly what is over a limit. */
  method CheckLegacy(shots: seq<Shot>) returns (ok: bool)
    requires Grouped(shots) && forall k :: 0 <= k < |shots| ==> shots[k].tx > 0
    ensures ok <==> LegacyFits(shots)
  {
    var all, inTransaction, current := 0, 0, 0;
    for k := 0 to |shots|
      invariant all == Tally(shots[..k], AnyLegacy()) <= MAX_ARCHIVED_IMAGES_DATABASE
      invariant inTransaction == Tally(shots[..k], Legacy(current))
      invariant LastLegacy(shots, k, current) && (current == 0 || exists i :: 0 <= i < k && shots[i].tx == current)
      invariant forall tx :: Tally(shots[..k], Legacy(tx)) <= MAX_ARCHIVED_IMAGES_PER_TRANSACTION
    {
      TallyStep(shots, AnyLegacy(), k);
      forall tx ensures Tally(shots[..k + 1], Legacy(tx)) == Tally(shots[..k], Legacy(tx)) + Legacy(tx)(shots[k]) {
        TallyStep(shots, Legacy(tx), k);
      }
      if shots[k].legacy {
        if current != shots[k].tx {
          FirstOfTransaction(shots, k, current);
          current, inTransaction := shots[k].tx, 0;
        }
        all, inTransaction := all + 1, inTransaction + 1;
        if inTransaction > MAX_ARCHIVED_IMAGES_PER_TRANSACTION {
          TallyPrefix(shots, Legacy(current), k + 1);
          return false;
        }
        if all > MAX_ARCHIVED_IMAGES_DATABASE {
          TallyPrefix(shots, AnyLegacy(), k + 1);
          return false;
        }
      }
    }
    assert shots[..|shots|] == shots;
    return true;
  }

  /** The total must stay within the database's limit at every image. */
  method CheckTotal(shots: seq<Shot>) returns (ok: bool)
    ensures ok <==> Tally(shots, AnySize()) <= MAX_IMAGE_BYTES_DATABASE
  {
    var total := 0;
    for k := 0 to |shots|
      invariant total == Tally(shots[..k], AnySize()) <= MAX_IMAGE_BYTES_DATABASE
    {
      TallyStep(shots, AnySize(), k);
      TallyPrefix(shots, AnySize(), k + 1);
      if shots[k].size > MAX_IMAGE_BYTES_DATABASE - total {
        return false;
      }
      total := total + shots[k].size;
    }
    assert shots[..|shots|] == shots;
    return true;
  }

  function TotalOf(totals: map<Data, nat>, account: Data): nat {
    if account in totals then totals[account] else 0
  }

  /** Grouping by account and comparing every group. */
  method CheckAccounts(shots: seq<Shot>, accounts: map<int, Data>) returns (ok: bool)
    ensures ok <==> AccountsFit(shots, accounts)
  {
    var totals: map<Data, nat> := map[];
    for k := 0 to |shots|
      invariant forall account :: TotalOf(totals, account) == Tally(shots[..k], AccountSize(accounts, account))
    {
      forall account
        ensures Tally(shots[..k + 1], AccountSize(accounts, account))
             == Tally(shots[..k], AccountSize(accounts, account)) + AccountSize(accounts, account)(shots[k])
      {
        TallyStep(shots, AccountSize(accounts, account), k);
      }
      if shots[k].tx in accounts {
        var account := accounts[shots[k].tx];
        totals := totals[account := TotalOf(totals, account) + shots[k].size];
      }
    }
    assert shots[..|shots|] == shots;
    ok := forall account :: account in totals ==> totals[account] <= MAX_IMAGE_BYTES_PER_ACCOUNT;
    if ok {
      forall account ensures Tally(shots, AccountSize(accounts, account)) <= 134_217_728 {
        assert TotalOf(totals, account) <= MAX_IMAGE_BYTES_PER_ACCOUNT;
      }
    } else {
      ghost var account :| account in totals && totals[account] > MAX_IMAGE_BYTES_PER_ACCOUNT;
      assert TotalOf(totals, account) > MAX_IMAGE_BYTES_PER_ACCOUNT;
    }
  }
}
