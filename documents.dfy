/**
 * Uploaded documents: the single-file check `validar_pdf_up` (app.py:102-107) and
 * the fifteen upload slots of the form with their fixed file names (app.py:236-252).
 */
module Documents {
  import opened Wrappers

  newtype byte = x: int | 0 <= x < 256

  /** An uploaded file: its bytes and the content type the browser declared. */
  datatype File = File(content: seq<byte>, mimeType: string)

  const PdfMime: string := "application/pdf"
  const MissingMessage: string := "Documento obrigatório ausente."
  const NotPdfMessage: string := "Arquivo deve ser PDF."

  /** A file is present and declared as PDF. */
  predicate IsPdf(file: Option<File>) {
    file.Some? && file.value.mimeType == PdfMime
  }

  /**
   * `validar_pdf_up(file, obrigatorio)`: the ok flag and, when not ok, the message.
   * A missing required file is reported before the content type is looked at.
   */
  function CheckPdf(file: Option<File>, required: bool): (r: (bool, Option<string>))
    ensures r.0 <==> r.1 == None
    ensures r.0 <==> (if required then IsPdf(file) else file.None? || IsPdf(file))
    ensures required && file.None? ==> r.1 == Some(MissingMessage)
    ensures file.Some? && file.value.mimeType != PdfMime ==> r.1 == Some(NotPdfMessage)
  {
    if required && file.None? then (false, Some(MissingMessage))
    else if file.Some? && file.value.mimeType != PdfMime then (false, Some(NotPdfMessage))
    else (true, None)
  }

  /** An optional file that was not uploaded is always accepted. */
  lemma AbsentOptionalAccepted()
    ensures CheckPdf(None, false) == (true, None)
  {
  }

  /**
   * The upload slots, one per `file_uploader` of the form (app.py:66-88); the
   * comment gives the key of the `saved` dictionary.
   */
  datatype Slot =
    | RgDoc         // "rg"
    | CpfDoc        // "cpf"
    | Military      // "militar"
    | Residence     // "resid"
    | VoterTitle    // "titulo"
    | WorkCard      // "ctps"
    | Pis           // "pis"
    | Resume        // "curriculo"
    | Schooling     // "escolaridade"
    | Diploma       // "diploma_sup"
    | PostGraduate  // "pos"
    | Experience    // "exper"
    | DisabilityReport  // "laudo_pcd"
    | FunaiDeclaration  // "funai"
    | CriminalRecords   // "antecedentes"

  /** Every slot, in the order of the `saved` dictionary. */
  const AllSlots: seq<Slot> := [
    RgDoc, CpfDoc, Residence, VoterTitle, WorkCard, Pis, Resume, Schooling, Diploma,
    PostGraduate, Experience, Military, DisabilityReport, FunaiDeclaration, CriminalRecords
  ]

  lemma AllSlotsComplete(s: Slot)
    ensures s in AllSlots
  {
  }

  /** The file name a slot's upload is stored under. */
  function FileName(s: Slot): string {
    match s
    case RgDoc => "RG.pdf"
    case CpfDoc => "CPF.pdf"
    case Residence => "Comprovante_Residencia.pdf"
    case VoterTitle => "Titulo_Eleitor_Quitacao.pdf"
    case WorkCard => "CTPS.pdf"
    case Pis => "PIS_PASEP.pdf"
    case Resume => "Curriculo_Comprovado.pdf"
    case Schooling => "Escolaridade.pdf"
    case Diploma => "Diploma_Superior.pdf"
    case PostGraduate => "Pos_Graduacao.pdf"
    case Experience => "Experiencia.pdf"
    case Military => "Quitacao_Militar.pdf"
    case DisabilityReport => "Laudo_PCD.pdf"
    case FunaiDeclaration => "Declaracao_FUNAI_Cacique.pdf"
    case CriminalRecords => "Antecedentes_Criminais.pdf"
  }

  /** Two slots never share a file name, so no upload overwrites another. */
  lemma FileNamesDistinct(s: Slot, t: Slot)
    requires s != t
    ensures FileName(s) != FileName(t)
  {
  }

  /** Every file name is relative: non-empty and not starting with '/'. */
  lemma FileNameShape(s: Slot)
    ensures |FileName(s)| > 4 && FileName(s)[0] != '/'
  {
    match s
    case RgDoc =>
    case CpfDoc =>
    case Residence =>
    case VoterTitle =>
    case WorkCard =>
    case Pis =>
    case Resume =>
    case Schooling =>
    case Diploma =>
    case PostGraduate =>
    case Experience =>
    case Military =>
    case DisabilityReport =>
    case FunaiDeclaration =>
    case CriminalRecords =>
  }
}
