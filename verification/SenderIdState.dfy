/** The status vocabularies of a sender ID application: the product's free string, of which four
    values mean something, and the wider enum a review stores. */
module SenderIdState {
  import opened Prelude

  datatype ReviewStatus =
    | Submitted | InReview | ChangesRequested | Rejected | Approved
    | SubmittedToOperators | Active | OperatorRejected | Suspended

  datatype ProductStatus = Draft | PendingReview | ProductApproved | ProductRejected

  datatype Decision = Approve | Reject

  /** `toUpperCase` on the letters that can give one of the four status words: the dotless i has
      the capital I too. Every other character stays what it is, or becomes something those words
      do not contain. */
  function UpperChar(c: char): char {
    if 'a' <= c <= 'z' then ((c as int) - 32) as char else if c as int == 0x131 then 'I' else c
  }

  function Upper(s: string): string { seq(|s|, i requires 0 <= i < |s| => UpperChar(s[i])) }

  /** The product status a stored string means, if it is one of the four. */
  function Meaning(status: string): Option<ProductStatus> {
    var word := Upper(Trim(status));
    if word == "DRAFT" then Some(Draft)
    else if word == "PENDING_REVIEW" then Some(PendingReview)
    else if word == "APPROVED" then Some(ProductApproved)
    else if word == "REJECTED" then Some(ProductRejected)
    else None
  }

  function PresentStatus(status: ReviewStatus): ProductStatus {
    match status
    case Submitted => PendingReview
    case InReview => PendingReview
    case Approved => ProductApproved
    case Rejected => ProductRejected
    case ChangesRequested => ProductRejected
    case SubmittedToOperators => ProductApproved
    case Active => ProductApproved
    case OperatorRejected => ProductRejected
    case Suspended => ProductRejected
  }

  /** What a review stores for an application: nothing for a draft or an unknown status. */
  function ToReviewStatus(productStatus: string): Option<ReviewStatus> {
    var word := Upper(Trim(productStatus));
    if word == "PENDING_REVIEW" then Some(Submitted)
    else if word == "APPROVED" then Some(Approved)
    else if word == "REJECTED" then Some(Rejected)
    else None
  }

  function AllowedDecisions(status: ReviewStatus): seq<Decision> {
    match PresentStatus(status)
    case PendingReview => [Approve, Reject]
    case ProductApproved => [Reject]
    case ProductRejected => [Approve]
    case Draft => []
  }

  /** The only words the console writes into the product. */
  function Word(d: Decision): string { if d.Approve? then "APPROVED" else "REJECTED" }

  function Stored(d: Decision): ReviewStatus { if d.Approve? then Approved else Rejected }

  /** The two vocabularies agree: a review exists for exactly the three filed statuses, presents as
      the status it was made from, and a decision writes the word that means what its review shows. */
  lemma {:induction false} StatusesAgree(productStatus: string, d: Decision)
    ensures ToReviewStatus(productStatus).Some? <==> Meaning(productStatus).Some? && Meaning(productStatus).value != Draft
    ensures ToReviewStatus(productStatus).Some? ==> PresentStatus(ToReviewStatus(productStatus).value) == Meaning(productStatus).value
    ensures ToReviewStatus(Word(d)) == Some(Stored(d)) && Meaning(Word(d)) == Some(PresentStatus(Stored(d)))
  {
    assert Trim("APPROVED") == "APPROVED" && Trim("REJECTED") == "REJECTED";
    assert Upper("APPROVED") == "APPROVED" && Upper("REJECTED") == "REJECTED";
  }

  /** The product's four words mean their four statuses, in small letters too. */
  lemma {:induction false} FourWords()
    ensures Meaning("DRAFT") == Meaning("draft") == Some(Draft)
    ensures Meaning("PENDING_REVIEW") == Meaning("pending_review") == Some(PendingReview)
    ensures Meaning("APPROVED") == Meaning("approved") == Some(ProductApproved)
    ensures Meaning("REJECTED") == Meaning("rejected") == Some(ProductRejected)
  {
    SmallDraft();
    SmallPending();
    SmallApproved();
    SmallRejected();
    hide Meaning, Upper, Trim;
    CapitalsStay("DRAFT");
    CapitalsStay("PENDING_REVIEW");
    CapitalsStay("APPROVED");
    CapitalsStay("REJECTED");
    MeansAs("DRAFT", "DRAFT");
    MeansAs("draft", "DRAFT");
    MeansAs("PENDING_REVIEW", "PENDING_REVIEW");
    MeansAs("pending_review", "PENDING_REVIEW");
    MeansAs("APPROVED", "APPROVED");
    MeansAs("approved", "APPROVED");
    MeansAs("REJECTED", "REJECTED");
    MeansAs("rejected", "REJECTED");
  }

  lemma MeansAs(word: string, capitals: string)
    requires word != "" && !IsSpace(word[0]) && !IsSpace(word[|word| - 1]) && Upper(word) == capitals
    ensures Meaning(word) ==
      if capitals == "DRAFT" then Some(Draft)
      else if capitals == "PENDING_REVIEW" then Some(PendingReview)
      else if capitals == "APPROVED" then Some(ProductApproved)
      else if capitals == "REJECTED" then Some(ProductRejected)
      else None
  {
    TightStays(word);
    hide Trim, Upper;
  }

  lemma TightStays(word: string)
    requires word != "" && !IsSpace(word[0]) && !IsSpace(word[|word| - 1])
    ensures Trim(word) == word
  {
  }

  lemma CapitalsStay(word: string)
    requires forall i :: 0 <= i < |word| ==> 'A' <= word[i] <= 'Z' || word[i] == '_'
    ensures Upper(word) == word
  {
  }

  lemma SmallDraft()
    ensures Upper("draft") == "DRAFT"
  {
  }

  lemma SmallPending()
    ensures Upper("pending_review") == "PENDING_REVIEW"
  {
  }

  lemma SmallApproved()
    ensures Upper("approved") == "APPROVED"
  {
  }

  lemma SmallRejected()
    ensures Upper("rejected") == "REJECTED"
  {
  }

  /** The words a review's statuses present as: picked up is still waiting, and the statuses nothing writes
      any more read as their nearest meaning. */
  lemma {:induction false} PresentsAs(status: ReviewStatus)
    ensures PresentStatus(status) == PendingReview <==> status in {Submitted, InReview}
    ensures PresentStatus(status) == ProductApproved <==> status in {Approved, SubmittedToOperators, Active}
    ensures PresentStatus(status) == ProductRejected <==> status in {Rejected, ChangesRequested, OperatorRejected, Suspended}
  {
  }

  /** A decision is allowed exactly when the application is filed and not already decided that way. */
  lemma {:induction false} AllowedUnlessDecided(status: ReviewStatus, d: Decision)
    ensures d in AllowedDecisions(status) <==> PresentStatus(status) != PresentStatus(Stored(d))
  {
  }
}
