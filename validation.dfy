/**
 * The validation block of app.py:140-195: nine required fields, eight documents
 * that are always required, one education document chosen by the role's tier,
 * and the PCD report and FUNAI declaration when the applicant declared them.
 * Every failed rule adds a message; none stops the others. The applicant is
 * shown `sorted(set(erros))`.
 */
module Validation {
  import opened Wrappers
  import opened Normalizer
  import opened Text
  import opened Catalog
  import opened Documents

  /**
   * What the form hands over on "Enviar inscrição" (app.py:44-94). The radio
   * answers are the strings "Sim" / "Não"; an upload that was not made is absent
   * from `uploads`. The birth date is only stored in the database and is not part
   * of this model.
   */
  datatype Submission = Submission(
    fullName: string,      // nome
    rg: string,            // rg
    cpf: string,           // cpf, as typed
    address: string,       // endereco
    phone: string,         // telefone
    email: string,         // email
    pcd: string,           // pcd: "Não" | "Sim"
    indigenous: string,    // indigena: "Não" | "Sim"
    role: string,          // cargo
    locality: string,      // localidade (never validated)
    experience: string,    // experiencia (never validated)
    truthful: bool,        // declara
    authorizes: bool,      // autoriza
    uploads: map<Slot, File>)

  const Yes: string := "Sim"

  function Upload(sub: Submission, s: Slot): Option<File> {
    if s in sub.uploads then Some(sub.uploads[s]) else None
  }

  // ---------------------------------------------------------------------------
  // Required fields (app.py:144-158)

  /** The keys of the `obrigatorios` dictionary, in its order. */
  datatype Field =
    FullName | Cpf | Rg | Address | Phone | Email | Role | Truthfulness | Authorization

  const FieldOrder: seq<Field> :=
    [FullName, Cpf, Rg, Address, Phone, Email, Role, Truthfulness, Authorization]

  function Key(f: Field): string {
    match f
    case FullName => "Nome completo"
    case Cpf => "CPF"
    case Rg => "RG"
    case Address => "Endereço"
    case Phone => "Telefone"
    case Email => "E-mail"
    case Role => "Cargo"
    case Truthfulness => "Declaração de veracidade"
    case Authorization => "Autorização de uso dos dados"
  }

  /** `bool(cpf_limpo) and len(cpf_limpo) == 11` */
  function CpfOk(cpf: string): (ok: bool)
    ensures ok <==> |KeepDigits(cpf)| == 11
  {
    var digits := KeepDigits(cpf);
    digits != [] && |digits| == 11
  }

  /** The value of a field's entry in `obrigatorios`. */
  function FieldOk(sub: Submission, f: Field): bool {
    match f
    case FullName => HasText(sub.fullName)
    case Cpf => CpfOk(sub.cpf)
    case Rg => HasText(sub.rg)
    case Address => HasText(sub.address)
    case Phone => HasText(sub.phone)
    case Email => HasText(sub.email)
    case Role => sub.role != Placeholder
    case Truthfulness => sub.truthful
    case Authorization => sub.authorizes
  }

  /** The `obrigatorios` dictionary as a list of (key, passed) pairs. */
  function RequiredFields(sub: Submission): (r: seq<(string, bool)>)
    ensures |r| == |FieldOrder|
    ensures forall i :: 0 <= i < |r| ==> r[i] == (Key(FieldOrder[i]), FieldOk(sub, FieldOrder[i]))
  {
    seq(|FieldOrder|, i requires 0 <= i < |FieldOrder| => (Key(FieldOrder[i]), FieldOk(sub, FieldOrder[i])))
  }

  /** `f"{k} é obrigatório."` */
  function FieldMessage(key: string): string {
    key + " é obrigatório."
  }

  /** The messages of the failed entries of `checks`, in order. */
  function FieldFailures(checks: seq<(string, bool)>): seq<string> {
    if checks == [] then []
    else
      var last := checks[|checks| - 1];
      FieldFailures(checks[..|checks| - 1]) + (if last.1 then [] else [FieldMessage(last.0)])
  }

  // ---------------------------------------------------------------------------
  // Documents that are always required (app.py:161-172)

  /** The documents of the `checks` list, in its order. */
  const BaselineSlots: seq<Slot> :=
    [RgDoc, CpfDoc, Residence, VoterTitle, WorkCard, Pis, Resume, CriminalRecords]

  /** The `checks` list: `validar_pdf_up(doc, True)` for each baseline document. */
  function BaselineChecks(sub: Submission): (r: seq<(bool, Option<string>)>)
    ensures |r| == |BaselineSlots|
    ensures forall i :: 0 <= i < |r| ==> r[i] == CheckPdf(Upload(sub, BaselineSlots[i]), true)
  {
    seq(|BaselineSlots|, i requires 0 <= i < |BaselineSlots| => CheckPdf(Upload(sub, BaselineSlots[i]), true))
  }

  /** The messages of the failed entries of `checks`, in order (a failed check always carries one). */
  function DocumentFailures(checks: seq<(bool, Option<string>)>): seq<string> {
    if checks == [] then []
    else
      var last := checks[|checks| - 1];
      DocumentFailures(checks[..|checks| - 1]) + (if last.0 then [] else [last.1.GetOr("")])
  }

  // ---------------------------------------------------------------------------
  // Documents that depend on the role and the declarations (app.py:174-190)

  const DiplomaMessage: string :=
    "Diploma/Certificado de Curso Superior é obrigatório para cargos de nível superior."
  const SchoolingMessage: string := "Escolaridade exigida é obrigatória para este cargo."
  const DisabilityMessage: string := "Laudo PCD obrigatório."
  const FunaiMessage: string := "Declaração FUNAI/Cacique obrigatória."

  function EducationFailures(sub: Submission): seq<string> {
    if sub.role in HigherEducationRoles then
      (if CheckPdf(Upload(sub, Diploma), true).0 then [] else [DiplomaMessage])
    else if sub.role in TechnicalRoles || sub.role in MidLevelRoles || sub.role in ElementaryRoles then
      (if CheckPdf(Upload(sub, Schooling), true).0 then [] else [SchoolingMessage])
    else []
  }

  function DeclarationFailures(sub: Submission): seq<string> {
    (if sub.pcd == Yes && !CheckPdf(Upload(sub, DisabilityReport), true).0 then [DisabilityMessage] else [])
    + (if sub.indigenous == Yes && !CheckPdf(Upload(sub, FunaiDeclaration), true).0 then [FunaiMessage] else [])
  }

  /** The `erros` list once every rule has run, in the order the rules append to it. */
  function Errors(sub: Submission): seq<string> {
    FieldFailures(RequiredFields(sub)) + DocumentFailures(BaselineChecks(sub))
    + EducationFailures(sub) + DeclarationFailures(sub)
  }

  /** What the applicant is shown: `sorted(set(erros))`. */
  function Displayed(sub: Submission): (r: seq<string>)
    ensures StrictlySorted(r)
    ensures forall m :: m in r <==> m in Errors(sub)
  {
    SortedDistinct(Errors(sub))
  }

  /** `for k,v in obrigatorios.items(): if not v: erros.append(f"{k} é obrigatório.")` */
  method AppendFieldFailures(errors: seq<string>, checks: seq<(string, bool)>) returns (r: seq<string>)
    ensures r == errors + FieldFailures(checks)
  {
    r := errors;
    for i := 0 to |checks|
      invariant r == errors + FieldFailures(checks[..i])
    {
      assert checks[..i + 1][..i] == checks[..i];
      var (key, ok) := checks[i];
      if !ok {
        r := r + [FieldMessage(key)];
      }
    }
    assert checks[..|checks|] == checks;
  }

  /** `for ok,msg in checks: if not ok: erros.append(msg)` */
  method AppendDocumentFailures(errors: seq<string>, checks: seq<(bool, Option<string>)>) returns (r: seq<string>)
    ensures r == errors + DocumentFailures(checks)
  {
    r := errors;
    for i := 0 to |checks|
      invariant r == errors + DocumentFailures(checks[..i])
    {
      assert checks[..i + 1][..i] == checks[..i];
      var (ok, msg) := checks[i];
      if !ok {
        r := r + [msg.GetOr("")];
      }
    }
    assert checks[..|checks|] == checks;
  }

  /** The schooling rule: a diploma for higher-education roles, a schooling certificate for the rest. */
  method CheckEducation(sub: Submission) returns (r: seq<string>)
    ensures r == EducationFailures(sub)
  {
    r := [];
    if sub.role in HigherEducationRoles {
      var (ok, _) := CheckPdf(Upload(sub, Diploma), true);
      if !ok {
        r := [DiplomaMessage];
      }
    } else if sub.role in TechnicalRoles || sub.role in MidLevelRoles || sub.role in ElementaryRoles {
      var (ok, _) := CheckPdf(Upload(sub, Schooling), true);
      if !ok {
        r := [SchoolingMessage];
      }
    }
  }

  /** The declaration rules: a disability report when `pcd == "Sim"`, a FUNAI declaration when `indigena == "Sim"`. */
  method CheckDeclarations(sub: Submission) returns (r: seq<string>)
    ensures r == DeclarationFailures(sub)
  {
    r := [];
    if sub.pcd == Yes {
      var (ok, _) := CheckPdf(Upload(sub, DisabilityReport), true);
      if !ok {
        r := r + [DisabilityMessage];
      }
    }
    if sub.indigenous == Yes {
      var (ok, _) := CheckPdf(Upload(sub, FunaiDeclaration), true);
      if !ok {
        r := r + [FunaiMessage];
      }
    }
  }

  /** The validation block: builds `erros` rule by rule, in the source's order. */
  method CollectErrors(sub: Submission) returns (errors: seq<string>)
    ensures errors == Errors(sub)
  {
    errors := AppendFieldFailures([], RequiredFields(sub));
    errors := AppendDocumentFailures(errors, BaselineChecks(sub));
    var education := CheckEducation(sub);
    var declarations := CheckDeclarations(sub);
    errors := errors + education + declarations;
  }
}
