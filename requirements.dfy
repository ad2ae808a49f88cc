/**
 * What the validation block of app.py:140-195 promises, stated against the
 * `Errors` list it builds: one lemma per rule, the requirement set that
 * decides acceptance, and the shape of the displayed list.
 */
module Requirements {
  import opened Wrappers
  import opened Normalizer
  import opened Text
  import opened Catalog
  import opened Documents
  import opened Validation
  import opened Seqs

  // ---------------------------------------------------------------------------
  // The requirement set

  /** The documents of the `checks` list. */
  predicate IsBaseline(s: Slot) {
    s.RgDoc? || s.CpfDoc? || s.Residence? || s.VoterTitle? || s.WorkCard? || s.Pis? || s.Resume? || s.CriminalRecords?
  }

  lemma BaselineSlotsExact(s: Slot)
    ensures s in BaselineSlots <==> IsBaseline(s)
  {
  }

  lemma BaselineSlotsDistinct()
    ensures Distinct(BaselineSlots)
  {
  }

  /**
   * Whether a document must be sent as PDF: the eight baseline documents always,
   * the diploma for the higher-education tier, the schooling certificate for the
   * other tiers (neither for the placeholder), the PCD report and the FUNAI
   * declaration when declared, and never the military certificate, the
   * post-graduate certificate or the experience proof.
   */
  predicate Required(tier: Option<Tier>, pcd: bool, indigenous: bool, s: Slot) {
    match s
    case Diploma => tier == Some(HigherEducation)
    case Schooling => tier.Some? && tier != Some(HigherEducation)
    case DisabilityReport => pcd
    case FunaiDeclaration => indigenous
    case Military | PostGraduate | Experience => false
    case RgDoc | CpfDoc | Residence | VoterTitle | WorkCard | Pis | Resume | CriminalRecords => true
  }

  /** The documents required on top of the baseline, in the order the source checks them. */
  function ExtraDocuments(tier: Option<Tier>, pcd: bool, indigenous: bool): (r: seq<Slot>)
    ensures forall s :: s in r <==> Required(tier, pcd, indigenous, s) && !IsBaseline(s)
    ensures |r| == (if tier.Some? then 1 else 0) + (if pcd then 1 else 0) + (if indigenous then 1 else 0)
    ensures Distinct(r)
  {
    var education := match tier
      case Some(HigherEducation) => [Diploma]
      case Some(_) => [Schooling]
      case None => [];
    var report := if pcd then [DisabilityReport] else [];
    var declaration := if indigenous then [FunaiDeclaration] else [];
    assert Distinct(education + report) by {
      DistinctAppend(education, report);
    }
    DistinctAppend(education + report, declaration);
    education + report + declaration
  }

  /** The list of every document the rules check for a role tier and the two declarations. */
  function RequiredDocuments(tier: Option<Tier>, pcd: bool, indigenous: bool): (r: seq<Slot>)
    ensures forall s :: s in r <==> Required(tier, pcd, indigenous, s)
  {
    var extra := ExtraDocuments(tier, pcd, indigenous);
    forall s ensures s in BaselineSlots <==> IsBaseline(s) {
      BaselineSlotsExact(s);
    }
    BaselineSlots + extra
  }

  /** No document is asked for twice, so the count is 8 baseline + tier + PCD + FUNAI (9 to 11 for a real role). */
  lemma RequiredDocumentsCount(tier: Option<Tier>, pcd: bool, indigenous: bool)
    ensures var r := RequiredDocuments(tier, pcd, indigenous);
      && Distinct(r)
      && |r| == |BaselineSlots| + (if tier.Some? then 1 else 0) + (if pcd then 1 else 0) + (if indigenous then 1 else 0)
  {
    var extra := ExtraDocuments(tier, pcd, indigenous);
    BaselineSlotsDistinct();
    forall i, j | 0 <= i < |BaselineSlots| && 0 <= j < |extra|
      ensures BaselineSlots[i] != extra[j]
    {
      BaselineSlotsExact(BaselineSlots[i]);
      assert extra[j] in extra;
    }
    DistinctAppend(BaselineSlots, extra);
  }

  /** The rule applied to a submission: its role's tier and its two "Sim" answers. */
  predicate RequiredOf(sub: Submission, s: Slot) {
    Required(TierOf(sub.role), sub.pcd == Yes, sub.indigenous == Yes, s)
  }

  /** The independent statement of "this submission is accepted". */
  predicate Acceptable(sub: Submission) {
    (forall f :: FieldOk(sub, f))
    && (forall s :: RequiredOf(sub, s) ==> IsPdf(Upload(sub, s)))
  }

  // ---------------------------------------------------------------------------
  // Message bookkeeping

  lemma {:induction false} FieldFailuresMembers(checks: seq<(string, bool)>, m: string)
    ensures m in FieldFailures(checks) <==>
      exists i :: 0 <= i < |checks| && !checks[i].1 && m == FieldMessage(checks[i].0)
  {
    if checks != [] {
      var init := checks[..|checks| - 1];
      FieldFailuresMembers(init, m);
      assert forall i :: 0 <= i < |init| ==> init[i] == checks[i];
    }
  }

  lemma {:induction false} FieldFailuresEmpty(checks: seq<(string, bool)>)
    ensures FieldFailures(checks) == [] <==> forall i :: 0 <= i < |checks| ==> checks[i].1
  {
    if checks != [] {
      var init := checks[..|checks| - 1];
      FieldFailuresEmpty(init);
      assert forall i :: 0 <= i < |init| ==> init[i] == checks[i];
    }
  }

  lemma {:induction false} DocumentFailuresMembers(checks: seq<(bool, Option<string>)>, m: string)
    ensures m in DocumentFailures(checks) <==>
      exists i :: 0 <= i < |checks| && !checks[i].0 && m == checks[i].1.GetOr("")
  {
    if checks != [] {
      var init := checks[..|checks| - 1];
      DocumentFailuresMembers(init, m);
      assert forall i :: 0 <= i < |init| ==> init[i] == checks[i];
    }
  }

  lemma {:induction false} DocumentFailuresEmpty(checks: seq<(bool, Option<string>)>)
    ensures DocumentFailures(checks) == [] <==> forall i :: 0 <= i < |checks| ==> checks[i].0
  {
    if checks != [] {
      var init := checks[..|checks| - 1];
      DocumentFailuresEmpty(init);
      assert forall i :: 0 <= i < |init| ==> init[i] == checks[i];
    }
  }

  /** Every field message carries the 'é' of " é obrigatório." 14 places from its end. */
  predicate HasFieldMark(m: string) {
    |m| >= 14 && m[|m| - 14] == 'é'
  }

  lemma FieldMessageMark(key: string)
    ensures HasFieldMark(FieldMessage(key))
  {
    var m := FieldMessage(key);
    assert m[|m| - 14] == " é obrigatório."[1];
  }

  lemma FixedMessagesUnmarked()
    ensures !HasFieldMark(MissingMessage) && !HasFieldMark(NotPdfMessage)
    ensures !HasFieldMark(DiplomaMessage) && !HasFieldMark(SchoolingMessage)
    ensures !HasFieldMark(DisabilityMessage) && !HasFieldMark(FunaiMessage)
  {
  }

  /** Different fields give different messages. */
  lemma FieldMessageInjective(f: Field, g: Field)
    requires FieldMessage(Key(f)) == FieldMessage(Key(g))
    ensures f == g
  {
    var a, b := Key(f), Key(g);
    assert |a| == |b|;
    assert a == FieldMessage(a)[..|a|] && b == FieldMessage(b)[..|b|];
  }

  lemma FieldInOrder(f: Field)
    ensures exists i :: 0 <= i < |FieldOrder| && FieldOrder[i] == f
  {
    match f
    case FullName => assert FieldOrder[0] == f;
    case Cpf => assert FieldOrder[1] == f;
    case Rg => assert FieldOrder[2] == f;
    case Address => assert FieldOrder[3] == f;
    case Phone => assert FieldOrder[4] == f;
    case Email => assert FieldOrder[5] == f;
    case Role => assert FieldOrder[6] == f;
    case Truthfulness => assert FieldOrder[7] == f;
    case Authorization => assert FieldOrder[8] == f;
  }

  /** A failed required check carries "missing" for an absent file and "not PDF" otherwise. */
  lemma FailedRequiredCheck(file: Option<File>)
    ensures !CheckPdf(file, true).0 <==> !IsPdf(file)
    ensures file.None? ==> CheckPdf(file, true).1.GetOr("") == MissingMessage
    ensures file.Some? && !IsPdf(file) ==> CheckPdf(file, true).1.GetOr("") == NotPdfMessage
  {
  }

  predicate SomeBaselineMissing(sub: Submission) {
    exists s :: s in BaselineSlots && Upload(sub, s).None?
  }

  predicate SomeBaselineNotPdf(sub: Submission) {
    exists s :: s in BaselineSlots && Upload(sub, s).Some? && !IsPdf(Upload(sub, s))
  }

  lemma BaselineFailuresSound(sub: Submission, m: string)
    requires m in DocumentFailures(BaselineChecks(sub))
    ensures (m == MissingMessage && SomeBaselineMissing(sub)) || (m == NotPdfMessage && SomeBaselineNotPdf(sub))
  {
    var checks := BaselineChecks(sub);
    DocumentFailuresMembers(checks, m);
    var i :| 0 <= i < |checks| && !checks[i].0 && m == checks[i].1.GetOr("");
    var s := BaselineSlots[i];
    FailedRequiredCheck(Upload(sub, s));
    assert s in BaselineSlots;
  }

  lemma BaselineFailuresComplete(sub: Submission, s: Slot)
    requires s in BaselineSlots && !IsPdf(Upload(sub, s))
    ensures (if Upload(sub, s).None? then MissingMessage else NotPdfMessage) in DocumentFailures(BaselineChecks(sub))
  {
    var checks := BaselineChecks(sub);
    var i :| 0 <= i < |BaselineSlots| && BaselineSlots[i] == s;
    FailedRequiredCheck(Upload(sub, s));
    DocumentFailuresMembers(checks, if Upload(sub, s).None? then MissingMessage else NotPdfMessage);
    assert !checks[i].0;
  }

  /** A failed baseline check reports one of the two messages of `validar_pdf_up`. */
  lemma BaselineFailures(sub: Submission, m: string)
    ensures m in DocumentFailures(BaselineChecks(sub)) <==>
      (m == MissingMessage && SomeBaselineMissing(sub)) || (m == NotPdfMessage && SomeBaselineNotPdf(sub))
  {
    if m in DocumentFailures(BaselineChecks(sub)) {
      BaselineFailuresSound(sub, m);
    }
    if m == MissingMessage && SomeBaselineMissing(sub) {
      var s :| s in BaselineSlots && Upload(sub, s).None?;
      BaselineFailuresComplete(sub, s);
    }
    if m == NotPdfMessage && SomeBaselineNotPdf(sub) {
      var s :| s in BaselineSlots && Upload(sub, s).Some? && !IsPdf(Upload(sub, s));
      BaselineFailuresComplete(sub, s);
    }
  }

  /** Every message in `erros` is a field message or one of the six fixed texts. */
  lemma MessageKinds(sub: Submission, m: string)
    requires m in Errors(sub)
    ensures (exists f :: m == FieldMessage(Key(f)) && !FieldOk(sub, f))
      || m in [MissingMessage, NotPdfMessage, DiplomaMessage, SchoolingMessage, DisabilityMessage, FunaiMessage]
  {
    var fields := RequiredFields(sub);
    FieldFailuresMembers(fields, m);
    BaselineFailures(sub, m);
    if m in FieldFailures(fields) {
      var i :| 0 <= i < |fields| && !fields[i].1 && m == FieldMessage(fields[i].0);
      assert m == FieldMessage(Key(FieldOrder[i])) && !FieldOk(sub, FieldOrder[i]);
    }
  }

  // ---------------------------------------------------------------------------
  // One lemma per rule

  /**
   * Each of the nine required fields adds exactly "<key> é obrigatório." when it
   * fails, and that message appears only then (app.py:146-158).
   */
  lemma FieldRule(sub: Submission, f: Field)
    ensures FieldMessage(Key(f)) in Errors(sub) <==> !FieldOk(sub, f)
  {
    FieldMessageOnlyFromFields(sub, Key(f));
    FieldFailureOf(sub, f);
  }

  /** A field message can only have been added by the loop over the fields. */
  lemma FieldMessageOnlyFromFields(sub: Submission, key: string)
    ensures FieldMessage(key) in Errors(sub) <==> FieldMessage(key) in FieldFailures(RequiredFields(sub))
  {
    var m := FieldMessage(key);
    FieldMessageMark(key);
    FixedMessagesUnmarked();
    assert m != MissingMessage && m != NotPdfMessage;
    assert m != DiplomaMessage && m != SchoolingMessage && m != DisabilityMessage && m != FunaiMessage;
    BaselineFailures(sub, m);
  }

  lemma FieldFailureOf(sub: Submission, f: Field)
    ensures FieldMessage(Key(f)) in FieldFailures(RequiredFields(sub)) <==> !FieldOk(sub, f)
  {
    var m := FieldMessage(Key(f));
    var fields := RequiredFields(sub);
    FieldFailuresMembers(fields, m);
    if m in FieldFailures(fields) {
      var i :| 0 <= i < |fields| && !fields[i].1 && m == FieldMessage(fields[i].0);
      FieldMessageInjective(f, FieldOrder[i]);
    }
    if !FieldOk(sub, f) {
      FieldInOrder(f);
      var i :| 0 <= i < |FieldOrder| && FieldOrder[i] == f;
      assert !fields[i].1 && m == FieldMessage(fields[i].0);
    }
  }

  /** What the CPF, role and consent rules accept (app.py:148, 153-155). */
  lemma FieldMeaning(sub: Submission)
    ensures FieldOk(sub, Cpf) <==> |Normalize(Some(sub.cpf))| == 11
    ensures FieldOk(sub, Role) <==> sub.role != Placeholder
    ensures FieldOk(sub, Truthfulness) <==> sub.truthful
    ensures FieldOk(sub, Authorization) <==> sub.authorizes
  {
  }

  /** Name, RG, address, phone and e-mail pass exactly when they hold a non-whitespace character (app.py:147, 149-152). */
  lemma TextFieldsMeaning(sub: Submission)
    ensures FieldOk(sub, FullName) <==> exists i :: 0 <= i < |sub.fullName| && !IsSpace(sub.fullName[i])
    ensures FieldOk(sub, Rg) <==> exists i :: 0 <= i < |sub.rg| && !IsSpace(sub.rg[i])
    ensures FieldOk(sub, Address) <==> exists i :: 0 <= i < |sub.address| && !IsSpace(sub.address[i])
    ensures FieldOk(sub, Phone) <==> exists i :: 0 <= i < |sub.phone| && !IsSpace(sub.phone[i])
    ensures FieldOk(sub, Email) <==> exists i :: 0 <= i < |sub.email| && !IsSpace(sub.email[i])
  {
    assert FieldOk(sub, FullName) == HasText(sub.fullName) && FieldOk(sub, Rg) == HasText(sub.rg);
    assert FieldOk(sub, Address) == HasText(sub.address) && FieldOk(sub, Phone) == HasText(sub.phone);
    assert FieldOk(sub, Email) == HasText(sub.email);
  }

  /**
   * A missing baseline document is reported as "Documento obrigatório ausente.",
   * once however many are missing in the displayed list (app.py:161-172).
   */
  lemma MissingDocumentRule(sub: Submission)
    ensures MissingMessage in Errors(sub) <==> exists s :: s in BaselineSlots && Upload(sub, s).None?
  {
    MissingOrNotPdf(sub, MissingMessage);
    BaselineFailures(sub, MissingMessage);
  }

  /** A baseline document uploaded with another content type is reported as "Arquivo deve ser PDF.". */
  lemma NotPdfRule(sub: Submission)
    ensures NotPdfMessage in Errors(sub) <==>
      exists s :: s in BaselineSlots && Upload(sub, s).Some? && Upload(sub, s).value.mimeType != PdfMime
  {
    MissingOrNotPdf(sub, NotPdfMessage);
    BaselineFailures(sub, NotPdfMessage);
  }

  lemma MissingOrNotPdf(sub: Submission, m: string)
    requires m == MissingMessage || m == NotPdfMessage
    ensures m in Errors(sub) <==> m in DocumentFailures(BaselineChecks(sub))
  {
    FixedMessagesUnmarked();
    NotAFieldMessage(RequiredFields(sub), m);
    MessageLengths();
    assert m !in EducationFailures(sub) && m !in DeclarationFailures(sub);
  }

  /**
   * The education document follows the role's tier (app.py:175-181): the diploma
   * for a higher-education role, the schooling proof for the other three tiers,
   * nothing for the placeholder. Absent and non-PDF give the same message.
   */
  lemma EducationRule(sub: Submission)
    ensures DiplomaMessage in Errors(sub) <==>
      TierOf(sub.role) == Some(HigherEducation) && !IsPdf(Upload(sub, Diploma))
    ensures SchoolingMessage in Errors(sub) <==>
      TierOf(sub.role).Some? && TierOf(sub.role) != Some(HigherEducation) && !IsPdf(Upload(sub, Schooling))
  {
    FixedOutsideFieldsAndBaseline(sub, DiplomaMessage);
    FixedOutsideFieldsAndBaseline(sub, SchoolingMessage);
  }

  /**
   * The PCD report is checked exactly when PCD is "Sim" and the FUNAI declaration
   * exactly when Indígena is "Sim" (app.py:184-190).
   */
  lemma DeclarationRule(sub: Submission)
    ensures DisabilityMessage in Errors(sub) <==> sub.pcd == Yes && !IsPdf(Upload(sub, DisabilityReport))
    ensures FunaiMessage in Errors(sub) <==> sub.indigenous == Yes && !IsPdf(Upload(sub, FunaiDeclaration))
  {
    FixedOutsideFieldsAndBaseline(sub, DisabilityMessage);
    FixedOutsideFieldsAndBaseline(sub, FunaiMessage);
  }

  lemma FixedOutsideFieldsAndBaseline(sub: Submission, m: string)
    requires m == DiplomaMessage || m == SchoolingMessage || m == DisabilityMessage || m == FunaiMessage
    ensures m in Errors(sub) <==> m in EducationFailures(sub) + DeclarationFailures(sub)
  {
    var fields := RequiredFields(sub);
    NotAFieldMessage(fields, m);
    MessageLengths();
    BaselineFailures(sub, m);
  }

  lemma NotAFieldMessage(fields: seq<(string, bool)>, m: string)
    requires !HasFieldMark(m)
    ensures m !in FieldFailures(fields)
  {
    FieldFailuresMembers(fields, m);
    if m in FieldFailures(fields) {
      var i :| 0 <= i < |fields| && !fields[i].1 && m == FieldMessage(fields[i].0);
      FieldMessageMark(fields[i].0);
    }
  }

  lemma MessageLengths()
    ensures |MissingMessage| == 30 && |NotPdfMessage| == 21 && |DiplomaMessage| == 82
    ensures |SchoolingMessage| == 51 && |DisabilityMessage| == 22 && |FunaiMessage| == 37
  {
  }

  // ---------------------------------------------------------------------------
  // Acceptance

  lemma FieldsPass(sub: Submission)
    ensures FieldFailures(RequiredFields(sub)) == [] <==> forall f :: FieldOk(sub, f)
  {
    var fields := RequiredFields(sub);
    FieldFailuresEmpty(fields);
    forall f | forall i :: 0 <= i < |fields| ==> fields[i].1 ensures FieldOk(sub, f) {
      FieldInOrder(f);
      var i :| 0 <= i < |FieldOrder| && FieldOrder[i] == f;
      assert fields[i].1;
    }
  }

  lemma BaselinePass(sub: Submission)
    ensures DocumentFailures(BaselineChecks(sub)) == [] <==> forall s :: IsBaseline(s) ==> IsPdf(Upload(sub, s))
  {
    var checks := BaselineChecks(sub);
    DocumentFailuresEmpty(checks);
    forall s | IsBaseline(s) && (forall i :: 0 <= i < |checks| ==> checks[i].0) ensures IsPdf(Upload(sub, s)) {
      BaselineSlotsExact(s);
      var i :| 0 <= i < |BaselineSlots| && BaselineSlots[i] == s;
      assert checks[i].0;
    }
    forall i | 0 <= i < |checks| && (forall s :: IsBaseline(s) ==> IsPdf(Upload(sub, s))) ensures checks[i].0 {
      BaselineSlotsExact(BaselineSlots[i]);
    }
  }

  lemma EducationPass(sub: Submission)
    ensures EducationFailures(sub) == [] <==>
      (RequiredOf(sub, Diploma) ==> IsPdf(Upload(sub, Diploma)))
      && (RequiredOf(sub, Schooling) ==> IsPdf(Upload(sub, Schooling)))
  {
  }

  lemma DeclarationPass(sub: Submission)
    ensures DeclarationFailures(sub) == [] <==>
      (RequiredOf(sub, DisabilityReport) ==> IsPdf(Upload(sub, DisabilityReport)))
      && (RequiredOf(sub, FunaiDeclaration) ==> IsPdf(Upload(sub, FunaiDeclaration)))
  {
  }

  /** The required documents are the baseline ones plus the four conditional ones. */
  lemma RequiredSplit(sub: Submission)
    ensures (forall s :: RequiredOf(sub, s) ==> IsPdf(Upload(sub, s))) <==>
      (forall s :: IsBaseline(s) ==> IsPdf(Upload(sub, s)))
      && (RequiredOf(sub, Diploma) ==> IsPdf(Upload(sub, Diploma)))
      && (RequiredOf(sub, Schooling) ==> IsPdf(Upload(sub, Schooling)))
      && (RequiredOf(sub, DisabilityReport) ==> IsPdf(Upload(sub, DisabilityReport)))
      && (RequiredOf(sub, FunaiDeclaration) ==> IsPdf(Upload(sub, FunaiDeclaration)))
  {
    forall s | IsBaseline(s) ensures RequiredOf(sub, s) {
    }
    forall s | RequiredOf(sub, s) && !IsBaseline(s)
      ensures s == Diploma || s == Schooling || s == DisabilityReport || s == FunaiDeclaration
    {
    }
  }

  /** No message at all exactly when every field passes and every required document is a PDF. */
  lemma ErrorsEmptyIff(sub: Submission)
    ensures Errors(sub) == [] <==> Acceptable(sub)
  {
    FieldsPass(sub);
    BaselinePass(sub);
    EducationPass(sub);
    DeclarationPass(sub);
    RequiredSplit(sub);
    var a, b := FieldFailures(RequiredFields(sub)), DocumentFailures(BaselineChecks(sub));
    var c, d := EducationFailures(sub), DeclarationFailures(sub);
    assert Errors(sub) == a + b + c + d;
    assert Errors(sub) == [] <==> a == [] && b == [] && c == [] && d == [] by {
      assert |Errors(sub)| == |a| + |b| + |c| + |d|;
    }
  }

  /** An accepted submission has an 11-digit CPF and every document the rules require. */
  lemma AcceptedMeansComplete(sub: Submission)
    requires Errors(sub) == []
    ensures |KeepDigits(sub.cpf)| == 11
    ensures sub.role != Placeholder && sub.truthful && sub.authorizes
    ensures forall s :: s in BaselineSlots ==> IsPdf(Upload(sub, s))
  {
    ErrorsEmptyIff(sub);
    assert FieldOk(sub, Cpf) && FieldOk(sub, Role) && FieldOk(sub, Truthfulness) && FieldOk(sub, Authorization);
    forall s | s in BaselineSlots ensures IsPdf(Upload(sub, s)) {
      BaselineSlotsExact(s);
      assert RequiredOf(sub, s);
    }
  }

  /**
   * The military clearance, post-graduate and experience uploads are never
   * validated, nor are the locality and experience answers: changing them leaves
   * `erros` as it was.
   */
  lemma UnvalidatedInputs(sub: Submission, s: Slot, f: Option<File>, locality: string, experience: string)
    requires s == Military || s == PostGraduate || s == Experience
    ensures
      var uploads := if f.Some? then sub.uploads[s := f.value] else sub.uploads - {s};
      Errors(sub.(uploads := uploads, locality := locality, experience := experience)) == Errors(sub)
  {
    var uploads := if f.Some? then sub.uploads[s := f.value] else sub.uploads - {s};
    var sub' := sub.(uploads := uploads, locality := locality, experience := experience);
    forall t | t != s ensures Upload(sub', t) == Upload(sub, t) {
    }
    SameErrors(sub, sub');
  }

  /** `erros` depends only on the nine fields, the two declarations and the twelve checked uploads. */
  lemma SameErrors(sub: Submission, sub': Submission)
    requires sub'.fullName == sub.fullName && sub'.rg == sub.rg && sub'.cpf == sub.cpf
    requires sub'.address == sub.address && sub'.phone == sub.phone && sub'.email == sub.email
    requires sub'.role == sub.role && sub'.truthful == sub.truthful && sub'.authorizes == sub.authorizes
    requires sub'.pcd == sub.pcd && sub'.indigenous == sub.indigenous
    requires forall t :: !(t == Military || t == PostGraduate || t == Experience) ==> Upload(sub', t) == Upload(sub, t)
    ensures Errors(sub') == Errors(sub)
  {
    SameBaselineChecks(sub, sub');
    SameRequiredFields(sub, sub');
    SameEducation(sub, sub');
    SameDeclarations(sub, sub');
  }

  lemma SameEducation(sub: Submission, sub': Submission)
    requires sub'.role == sub.role
    requires Upload(sub', Diploma) == Upload(sub, Diploma) && Upload(sub', Schooling) == Upload(sub, Schooling)
    ensures EducationFailures(sub') == EducationFailures(sub)
  {
  }

  lemma SameDeclarations(sub: Submission, sub': Submission)
    requires sub'.pcd == sub.pcd && sub'.indigenous == sub.indigenous
    requires Upload(sub', DisabilityReport) == Upload(sub, DisabilityReport)
    requires Upload(sub', FunaiDeclaration) == Upload(sub, FunaiDeclaration)
    ensures DeclarationFailures(sub') == DeclarationFailures(sub)
  {
  }

  lemma SameBaselineChecks(sub: Submission, sub': Submission)
    requires forall t :: IsBaseline(t) ==> Upload(sub', t) == Upload(sub, t)
    ensures BaselineChecks(sub') == BaselineChecks(sub)
  {
    var checks, checks' := BaselineChecks(sub), BaselineChecks(sub');
    forall i | 0 <= i < |checks| ensures checks'[i] == checks[i] {
      BaselineSlotsExact(BaselineSlots[i]);
    }
  }

  lemma SameRequiredFields(sub: Submission, sub': Submission)
    requires sub'.fullName == sub.fullName && sub'.rg == sub.rg && sub'.cpf == sub.cpf
    requires sub'.address == sub.address && sub'.phone == sub.phone && sub'.email == sub.email
    requires sub'.role == sub.role && sub'.truthful == sub.truthful && sub'.authorizes == sub.authorizes
    ensures RequiredFields(sub') == RequiredFields(sub)
  {
    var fields, fields' := RequiredFields(sub), RequiredFields(sub');
    forall i | 0 <= i < |fields| ensures fields'[i] == fields[i] {
      assert FieldOk(sub', FieldOrder[i]) == FieldOk(sub, FieldOrder[i]);
    }
  }

  // ---------------------------------------------------------------------------
  // The displayed list

  /** The displayed list holds each message once (app.py:194). */
  lemma DisplayedOnce(sub: Submission, i: int, j: int)
    requires 0 <= i < j < |Displayed(sub)|
    ensures Displayed(sub)[i] != Displayed(sub)[j]
  {
    StrictlySortedDistinct(Displayed(sub), i, j);
  }

  /** The displayed list is empty exactly when the submission is accepted. */
  lemma DisplayedEmptyIff(sub: Submission)
    ensures Displayed(sub) == [] <==> Acceptable(sub)
  {
    ErrorsEmptyIff(sub);
    if Errors(sub) != [] {
      assert Errors(sub)[0] in Errors(sub);
    }
    if Displayed(sub) != [] {
      assert Displayed(sub)[0] in Displayed(sub);
    }
  }

  /**
   * A higher-education applicant whose only fault is the missing diploma is shown
   * exactly that one message.
   */
  lemma OnlyDiplomaMissing(sub: Submission)
    requires forall f :: FieldOk(sub, f)
    requires forall s :: s in BaselineSlots ==> IsPdf(Upload(sub, s))
    requires sub.role in HigherEducationRoles
    requires sub.pcd != Yes && sub.indigenous != Yes
    requires Upload(sub, Diploma).None?
    ensures Displayed(sub) == [DiplomaMessage]
  {
    var fields := RequiredFields(sub);
    var checks := BaselineChecks(sub);
    FieldFailuresEmpty(fields);
    DocumentFailuresEmpty(checks);
    assert FieldFailures(fields) == [];
    forall i | 0 <= i < |checks| ensures checks[i].0 {
      assert BaselineSlots[i] in BaselineSlots;
    }
    assert DocumentFailures(checks) == [];
    assert EducationFailures(sub) == [DiplomaMessage];
    assert DeclarationFailures(sub) == [];
    assert Errors(sub) == [DiplomaMessage];
    SortedDistinctOfSorted([DiplomaMessage]);
  }
}
