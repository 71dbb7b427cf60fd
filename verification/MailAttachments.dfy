/** The attachment loop of the mail worker. */
module MailAttachments {
  import opened Text

  type Bytes = seq<int>

  datatype Zip = NotZip | BrokenZip | GoodZip(unsafe: bool, members: nat)

  datatype Part = Part(filename: Option<string>, payload: Bytes, zip: Zip)

  datatype MailLimits = MailLimits(maxAttachment: nat, maxTotal: nat, maxMembers: nat, maxFindings: nat)

  datatype Attachment = Attachment(index: nat, size: nat, analyzed: bool)

  function AnalyzedBytes(attachments: seq<Attachment>): nat
  {
    if attachments == [] then 0
    else
      var a := attachments[|attachments| - 1];
      AnalyzedBytes(attachments[..|attachments| - 1]) + (if a.analyzed then a.size else 0)
  }

  function PayloadBytes(parts: seq<Part>): nat
  {
    if parts == [] then 0
    else
      var p := parts[|parts| - 1];
      PayloadBytes(parts[..|parts| - 1]) + (if HasName(p) then |p.payload| else 0)
  }

  predicate HasName(p: Part) { p.filename.Some? && p.filename.value != "" }

  /** An attachment is analyzed exactly when it fits both budgets, counted over all attachments before
      it, rejected ones included, and is not a zip that is unsafe, too large or unreadable. */
  predicate Analyzable(limits: MailLimits, total: nat, p: Part)
  {
    && |p.payload| <= limits.maxAttachment && total + |p.payload| <= limits.maxTotal
    && (p.zip.NotZip? || (p.zip.GoodZip? && !p.zip.unsafe && p.zip.members <= limits.maxMembers))
  }

  /** One attachment for each named part, in order. */
  function Attachments(limits: MailLimits, parts: seq<Part>): seq<Attachment>
  {
    if parts == [] then []
    else
      var n := |parts| - 1;
      Attachments(limits, parts[..n])
      + (if HasName(parts[n]) then
         [Attachment(n, |parts[n].payload|, Analyzable(limits, PayloadBytes(parts[..n]), parts[n]))] else [])
  }

  /** How many archives were inspected. */
  function Inspected(limits: MailLimits, parts: seq<Part>): nat
  {
    if parts == [] then 0
    else
      var n := |parts| - 1;
      Inspected(limits, parts[..n])
      + (if HasName(parts[n]) && parts[n].zip.GoodZip?
         && Analyzable(limits, PayloadBytes(parts[..n]), parts[n]) then 1 else 0)
  }

  function RejectedCount(attachments: seq<Attachment>): nat
  {
    if attachments == [] then 0
    else RejectedCount(attachments[..|attachments| - 1]) + (if attachments[|attachments| - 1].analyzed then 0 else 1)
  }

  /** The attachment loop of the mail worker: one limitation is added for each rejected attachment, and
      one archive finding for each archive inspected. */
  method AttachmentLoop(limits: MailLimits, parts: seq<Part>)
    returns (attachments: seq<Attachment>, archives: nat, limitations: nat)
    ensures attachments == Attachments(limits, parts)
    ensures limitations == RejectedCount(attachments) && archives == Inspected(limits, parts)
  {
    attachments, archives, limitations := [], 0, 0;
    var total: nat := 0;
    for i := 0 to |parts|
      invariant total == PayloadBytes(parts[..i])
      invariant attachments == Attachments(limits, parts[..i])
      invariant limitations == RejectedCount(attachments) && archives == Inspected(limits, parts[..i])
    {
      var p := parts[i];
      assert parts[..i + 1][..i] == parts[..i];
      if HasName(p) {
        var analyzed := true;
        if |p.payload| > limits.maxAttachment || total + |p.payload| > limits.maxTotal {
          analyzed := false;
          limitations := limitations + 1;
        }
        if analyzed && p.zip.GoodZip? {
          if p.zip.unsafe || p.zip.members > limits.maxMembers {
            analyzed := false;
            limitations := limitations + 1;
          } else {
            archives := archives + 1;
          }
        } else if analyzed && p.zip.BrokenZip? {
          analyzed := false;
          limitations := limitations + 1;
        }
        total := total + |p.payload|;
        assert (attachments + [Attachment(i, |p.payload|, analyzed)])[..|attachments|] == attachments;
        attachments := attachments + [Attachment(i, |p.payload|, analyzed)];
      }
    }
    assert parts[..|parts|] == parts;
  }

  /** The attachments are those of the named parts; one is analyzed exactly when it fits what is left of both
      budgets after all named parts before it, and is no archive that cannot be read, has an unsafe member or
      too many. */
  lemma {:induction false} AttachmentsExactly(limits: MailLimits, parts: seq<Part>)
    ensures forall a :: a in Attachments(limits, parts) <==>
              && a.index < |parts| && parts[a.index].filename.Some? && parts[a.index].filename.value != ""
              && a.size == |parts[a.index].payload|
              && (a.analyzed <==>
                    && a.size <= limits.maxAttachment && PayloadBytes(parts[..a.index]) + a.size <= limits.maxTotal
                    && !parts[a.index].zip.BrokenZip?
                    && (parts[a.index].zip.GoodZip? ==>
                          !parts[a.index].zip.unsafe && parts[a.index].zip.members <= limits.maxMembers))
    ensures forall j, k :: 0 <= j < k < |Attachments(limits, parts)| ==>
              Attachments(limits, parts)[j].index < Attachments(limits, parts)[k].index
  {
    if parts != [] {
      var n := |parts| - 1;
      var init := parts[..n];
      AttachmentsExactly(limits, init);
      hide PayloadBytes;
      assert forall i :: 0 <= i < n ==> init[i] == parts[i] && init[..i] == parts[..i];
    }
  }

  lemma AnalyzedStep(attachments: seq<Attachment>, a: Attachment)
    ensures AnalyzedBytes(attachments + [a]) == AnalyzedBytes(attachments) + (if a.analyzed then a.size else 0)
  {
    assert (attachments + [a])[..|attachments|] == attachments;
  }

  /** The bytes analyzed never exceed the total budget, nor any attachment its own. */
  lemma {:induction false} AnalyzedWithinBudget(limits: MailLimits, parts: seq<Part>)
    ensures AnalyzedBytes(Attachments(limits, parts)) <= limits.maxTotal
    ensures AnalyzedBytes(Attachments(limits, parts)) <= PayloadBytes(parts)
    ensures forall a :: a in Attachments(limits, parts) && a.analyzed ==> a.size <= limits.maxAttachment
  {
    if parts != [] {
      var n := |parts| - 1;
      AnalyzedWithinBudget(limits, parts[..n]);
      assert Attachments(limits, parts[..n]) + [] == Attachments(limits, parts[..n]);
      if HasName(parts[n]) {
        AnalyzedStep(Attachments(limits, parts[..n]),
                     Attachment(n, |parts[n].payload|, Analyzable(limits, PayloadBytes(parts[..n]), parts[n])));
      }
    }
  }
}
