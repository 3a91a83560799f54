/**
 * A command's result document, as far as recovery and image delivery look into it: which images it
 * references, in which order, and what withdrawing one does.
 *
 * A document is the sequence of its leaves. `Image` is a reference item of `content`; `Marker` is a
 * string elsewhere in the document that names the same image; everything else is `Text`.
 */
module Outcomes {

  type Digest = nat

  datatype Reason = RefusedByServer(status: nat) | LostOnMachine | ExpiredFirst

  datatype Item =
    | Image(digest: Digest)
    | Marker(digest: Digest)
    | Text(content: nat)
    | Unavailable(reason: Reason)

  /**
   * `UnknownOutcome` and `ResultRefused(false)` are the two documents recovery itself writes.
   * `EmptyObject` is `{}`. `bytes` is the length of the encoded document.
   */
  datatype Outcome =
    | UnknownOutcome
    | ResultRefused(success: bool)
    | EmptyObject
    | Document(items: seq<Item>, bytes: nat)

  const MAX_RESULT_BYTES: nat := 65_536

  /** Whether the server's shape check lets a result through. */
  predicate Acceptable(outcome: Outcome) {
    match outcome
    case UnknownOutcome => true
    case ResultRefused(_) => true
    case EmptyObject => false
    case Document(_, bytes) => bytes <= MAX_RESULT_BYTES
  }

  /** A two-key document carrying the refusal code is taken for the replacement. */
  predicate IsRefusedReplacement(outcome: Outcome) {
    outcome.ResultRefused?
  }

  function ReferencesOf(items: seq<Item>): seq<Digest> {
    if items == [] then []
    else
      var before := ReferencesOf(items[..|items| - 1]);
      match items[|items| - 1]
      case Image(digest) => if digest in before then before else before + [digest]
      case _ => before
  }

  /** The distinct images a result references, in order of first mention. */
  function References(outcome: Outcome): seq<Digest> {
    if outcome.Document? then ReferencesOf(outcome.items) else []
  }

  predicate Names(item: Item, digest: Digest) {
    (item.Image? || item.Marker?) && item.digest == digest
  }

  function WithdrawItem(item: Item, digest: Digest, reason: Reason): Item {
    if Names(item, digest) then Unavailable(reason) else item
  }

  /** The result with one image withdrawn; its encoded length becomes `bytes`. */
  function Withdraw(outcome: Outcome, digest: Digest, reason: Reason, bytes: nat): Outcome {
    if outcome.Document?
    then Document(seq(|outcome.items|, i requires 0 <= i < |outcome.items| =>
                    WithdrawItem(outcome.items[i], digest, reason)), bytes)
    else outcome
  }

  /**
   * `later` is `original` minus some images: item by item it is either untouched or an image that
   * became unavailable, and an image that became unavailable anywhere is named nowhere.
   */
  ghost predicate Trimmed(original: Outcome, later: Outcome) {
    if original.Document?
    then
      && later.Document?
      && |later.items| == |original.items|
      && (forall i :: 0 <= i < |later.items| && later.items[i] != original.items[i] ==>
            && (original.items[i].Image? || original.items[i].Marker?)
            && later.items[i].Unavailable?
            && forall j :: 0 <= j < |later.items| ==> !Names(later.items[j], original.items[i].digest))
    else later == original
  }

  lemma {:induction false} ReferencesOfExact(items: seq<Item>)
    ensures forall digest :: digest in ReferencesOf(items) <==> Image(digest) in items
    ensures forall i, j :: 0 <= i < j < |ReferencesOf(items)| ==> ReferencesOf(items)[i] != ReferencesOf(items)[j]
  {
    if items != [] {
      var front, last := items[..|items| - 1], items[|items| - 1];
      ReferencesOfExact(front);
      assert items == front + [last];
    }
  }

  /** `References` lists exactly the referenced images, each once. */
  lemma ReferencesExact(outcome: Outcome)
    ensures forall digest :: digest in References(outcome) <==> outcome.Document? && Image(digest) in outcome.items
    ensures forall i, j :: 0 <= i < j < |References(outcome)| ==> References(outcome)[i] != References(outcome)[j]
  {
    if outcome.Document? {
      ReferencesOfExact(outcome.items);
    }
  }

  /** Withdrawing an image removes it from the references and no other image. */
  lemma WithdrawReferences(outcome: Outcome, digest: Digest, reason: Reason, bytes: nat)
    ensures forall d :: d in References(Withdraw(outcome, digest, reason, bytes)) <==>
                          d in References(outcome) && d != digest
  {
    var later := Withdraw(outcome, digest, reason, bytes);
    ReferencesExact(outcome);
    ReferencesExact(later);
    if outcome.Document? {
      forall d | d != digest && Image(d) in outcome.items ensures Image(d) in later.items {
        var i :| 0 <= i < |outcome.items| && outcome.items[i] == Image(d);
        assert later.items[i] == Image(d);
      }
    }
  }

  /** Withdrawing one more image keeps the relation to the document that was returned. */
  lemma WithdrawTrims(original: Outcome, outcome: Outcome, digest: Digest, reason: Reason, bytes: nat)
    requires Trimmed(original, outcome)
    ensures Trimmed(original, Withdraw(outcome, digest, reason, bytes))
  {
    var later := Withdraw(outcome, digest, reason, bytes);
    if original.Document? {
      forall i | 0 <= i < |later.items| && later.items[i] != original.items[i]
        ensures original.items[i].Image? || original.items[i].Marker?
        ensures later.items[i].Unavailable?
        ensures forall j :: 0 <= j < |later.items| ==> !Names(later.items[j], original.items[i].digest)
      {
        if outcome.items[i] == original.items[i] {
          assert Names(original.items[i], digest);
        }
      }
    }
  }
}
