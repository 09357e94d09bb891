/** The text of a journal's idempotency key (internal/ledger/postings.go, ref). */
module RefText {
  import opened Ledger
  import Money

  function KindText(kind: JournalKind): string {
    match kind
    case HoldJournal => "hold"
    case ReleaseJournal => "release"
    case LossJournal => "chargeback"
    case RefundJournal => "refund"
  }

  function Text(ref: Ref): string {
    "dispute:" + (Money.Decimal(ref.disputeId) + (":" + KindText(ref.kind)))
  }

  lemma KindsDiffer(k: JournalKind, l: JournalKind)
    requires KindText(k) == KindText(l)
    ensures k == l
  {
    assert KindText(k)[2] == KindText(l)[2];
  }

  /** The unique constraint on the text is a unique constraint on the dispute
      and the kind of journal: different keys never render alike. */
  lemma TextIsInjective(a: Ref, b: Ref)
    ensures Text(a) == Text(b) <==> a == b
  {
    if Text(a) == Text(b) {
      var x, u := Money.Decimal(a.disputeId), ":" + KindText(a.kind);
      var y, v := Money.Decimal(b.disputeId), ":" + KindText(b.kind);
      Money.SameSplit("dispute:", x + u, "dispute:", y + v);
      Money.NumberOfDecimal(a.disputeId);
      Money.NumberOfDecimal(b.disputeId);
      Money.FindAt(x, u, ':');
      Money.FindAt(y, v, ':');
      Money.SameSplit(x, u, y, v);
      assert u[1..] == KindText(a.kind) && v[1..] == KindText(b.kind);
      KindsDiffer(a.kind, b.kind);
    }
  }

  /** The text of each kind of journal. */
  lemma Rendered(n: nat)
    ensures Text(Ref(n, HoldJournal)) == "dispute:" + (Money.Decimal(n) + ":hold")
    ensures Text(Ref(n, ReleaseJournal)) == "dispute:" + (Money.Decimal(n) + ":release")
    ensures Text(Ref(n, LossJournal)) == "dispute:" + (Money.Decimal(n) + ":chargeback")
    ensures Text(Ref(n, RefundJournal)) == "dispute:" + (Money.Decimal(n) + ":refund")
  {
    assert ":" + "hold" == ":hold" && ":" + "release" == ":release";
    assert ":" + "chargeback" == ":chargeback" && ":" + "refund" == ":refund";
  }
}
