# Submission validation for the Ilhéus health-service hiring form

This project models the rule engine behind the Streamlit application form in
`app.py` for a public-sector hiring process in the health service of Ilhéus. An
applicant fills in personal data, picks a role (*cargo*), answers the PCD
(disability) and Indígena questions, ticks two consent boxes and uploads PDFs.
On "Enviar inscrição" the application:

* normalises the CPF (the Brazilian tax ID) to its digits (`apenas_digitos`);
* checks nine required fields and eight documents that are always required;
* adds one education document, chosen by the role's tier in the fixed catalog;
* adds the PCD medical report and the FUNAI declaration only when the applicant
  answered "Sim";
* collects every failure without stopping at the first, and shows
  `sorted(set(erros))`;
* if nothing failed, tries the database, then stores the uploads under
  `inscricoes/<cpf digits>/<fixed name>` and issues the protocol number
  `ILH-Saude-<cpf digits>-<YYYYmmddHHMMSS>`. It does this whatever the
  database step did.

Modules, one per component:

| file | module | models |
|---|---|---|
| wrappers.dfy | `Wrappers` | `Option`, standing for Python's `None` |
| normalizer.dfy | `Normalizer` | `apenas_digitos` |
| text.dfy | `Text` | `str.strip()`, Python's code-point order on `str`, `sorted(set(...))` |
| catalog.dfy | `Catalog` | the four role tiers and the `"— Selecione —"` placeholder |
| documents.dfy | `Documents` | `validar_pdf_up`, the fifteen upload slots and their file names |
| validation.dfy | `Validation` | the submission, the `obrigatorios`/`checks` rules, the `erros` list (`CollectErrors`, a method with loop invariants, proved equal to the specification function `Errors`) |
| requirements.dfy | `Requirements` | the requirement set and one lemma per rule; acceptance as a condition that does not mention the messages |
| storage.dfy | `Storage` | `os.path.join` on POSIX and the `saved` dictionary |
| protocol.dfy | `Protocol` | the protocol string, with a parse-back round trip |
| pipeline.dfy | `Pipeline` | the `if erros: … else: …` branch, with the database's answer and the clock as inputs |

The database's answer is an input (`Pipeline.DbOutcome`: inserted, connection
failed, duplicate CPF, other error). The clock is the `now` parameter
(`Protocol.Timestamp`). Uploads are values (`Documents.File`: bytes plus the
declared content type); a missing upload is a slot absent from the
submission's `uploads` map.

Points where the code's behaviour is easy to misread:

* The number of required documents. The code requires the 8 baseline
  documents, one education document for every catalogued role, and the PCD and
  FUNAI documents when declared. That makes 9 to 11 for a real role, and 8 to 10
  only for the placeholder. `Requirements.RequiredDocumentsCount` states this
  count.
* The "Cargo" rule. The code rejects only the placeholder, so a role string
  outside the catalog would pass it and need no education document. The form's
  drop-down never produces such a string; the model keeps the code's rule.
* File writes. An exception from `open`/`write` ends the whole accepted branch,
  so a failing write also stops the writes after it and the protocol number.
  File writes are not part of this model.

## Model

| member | source | states |
|---|---|---|
| Normalizer.KeepDigits | app.py:99-100 | the result contains only digits and is no longer than the input |
| Normalizer.Normalize | app.py:99-100 | `None` and `""` both give `""`; the result is all digits and no longer than the input |
| Normalizer.KeepDigitsIsSubsequence | app.py:99-100 | the digits keep their original order (the result is a subsequence of the input) |
| Normalizer.KeepDigitsCount | app.py:99-100 | each digit occurs in the result exactly as often as in the input; no other character occurs |
| Normalizer.KeepDigitsAppend | app.py:99-100 | normalising a concatenation is concatenating the normal forms |
| Normalizer.KeepDigitsOfDigits | app.py:99-100 | a string of digits is unchanged |
| Normalizer.KeepDigitsIdempotent | app.py:99-100 | normalising twice equals normalising once |
| Normalizer.DropSeparator | app.py:99-100 | one non-digit between two pieces disappears |
| Normalizer.FormattedCpf | app.py:144-148 | "ddd.ddd.ddd-dd" and "ddddddddd-dd" normalise to the same bare digits |
| Text.TrimStart | app.py:147-152 | removes exactly the leading whitespace: a suffix of the input, all removed characters whitespace, no leading whitespace left |
| Text.TrimEnd | app.py:147-152 | removes exactly the trailing whitespace |
| Text.Strip | app.py:147-152 | `str.strip()` is `TrimStart` then `TrimEnd`: exactly the leading and then the trailing whitespace removed, by their contracts |
| Text.HasText | app.py:147-152 | `bool(s.strip())` holds iff some character is not Python whitespace |
| Text.LessIrreflexive | app.py:194 | no string sorts before itself |
| Text.LessTransitive | app.py:194 | the string order is transitive |
| Text.LessTotal | app.py:194 | any two different strings are ordered one way or the other |
| Text.LessAsymmetric | app.py:194 | the string order is asymmetric |
| Text.Insert | app.py:194 | inserting into a strictly sorted list keeps it strictly sorted; the elements are the old ones plus the new one |
| Text.SortedDistinct | app.py:194 | `sorted(set(xs))` is strictly increasing and holds exactly the elements of `xs` |
| Text.StrictlySortedDistinct | app.py:194 | a strictly sorted list has no duplicates |
| Text.StrictlySortedUnique | app.py:194 | a set of messages has only one strictly sorted listing |
| Text.SortedDistinctDependsOnlyOnSet | app.py:194 | the displayed list does not depend on the order or repetition of `erros` |
| Text.SortedDistinctOfSorted | app.py:194 | sorting a sorted, duplicate-free list changes nothing |
| Catalog.TierOf | app.py:175-179 | a tier is returned only for a role in its list; no tier iff the role is in no list |
| Catalog.TierListDistinct | app.py:21-38 | no tier list names a role twice |
| Catalog.HigherEducationDistinct | app.py:21-26 | the higher-education list names no role twice |
| Catalog.HigherEducationApart | app.py:21-38 | no higher-education role is a technical or elementary role |
| Catalog.HigherEducationMidLevelApart | app.py:21-38 | no higher-education role is a mid-level role |
| Catalog.LowerTiersApart | app.py:27-38 | the technical, mid-level and elementary lists share no role |
| Catalog.TierListsApart | app.py:21-38 | two different tiers' lists share no entry |
| Catalog.TiersDisjoint | app.py:21-38 | no role belongs to two tier lists |
| Catalog.PlaceholderHasNoTier | app.py:39 | the placeholder is in no tier list |
| Catalog.TierOfExact | app.py:21-38 | a role has tier t iff t's list contains it |
| Catalog.AllRolesPartition | app.py:39 | the drop-down offers exactly the placeholder and the roles that have a tier |
| Documents.CheckPdf | app.py:102-107 | a required absent file gives (False, "Documento obrigatório ausente."); a present non-PDF gives (False, "Arquivo deve ser PDF."); otherwise (True, None); ok iff no message |
| Documents.AbsentOptionalAccepted | app.py:102-107 | an absent optional file is accepted |
| Documents.AllSlotsComplete | app.py:236-252 | the `saved` dictionary has an entry for every upload slot |
| Documents.FileNamesDistinct | app.py:236-252 | the fifteen file names are pairwise distinct |
| Documents.FileNameShape | app.py:236-252 | every file name is relative (does not start with '/') and non-empty |
| Validation.FieldOk | app.py:146-155 | the value of each `obrigatorios` entry: name, RG, address, phone and e-mail non-blank after `strip()`, an 11-digit CPF, a role other than the placeholder, both consents ticked (stated as properties by FieldMeaning and TextFieldsMeaning) |
| Validation.CpfOk | app.py:148 | the CPF passes iff its digit-only form has exactly 11 characters |
| Validation.Errors | app.py:141-190 | the `erros` list: failed fields' messages in dictionary order, then the baseline messages in `checks` order, then education, PCD, FUNAI; its meaning is stated rule by rule (FieldRule, MissingDocumentRule, NotPdfRule, EducationRule, DeclarationRule) and as a whole by ErrorsEmptyIff and MessageKinds |
| Validation.Displayed | app.py:192-195 | the shown list is strictly sorted and holds exactly the messages of `erros` |
| Validation.AppendFieldFailures | app.py:157-158 | the loop over `obrigatorios` appends exactly the messages of the failed entries, in order |
| Validation.AppendDocumentFailures | app.py:171-172 | the loop over `checks` appends exactly the messages of the failed checks, in order |
| Validation.CheckEducation | app.py:175-181 | the tier branch adds exactly the education part of `Errors` |
| Validation.CheckDeclarations | app.py:184-190 | the PCD and FUNAI branches add exactly the declaration part of `Errors` |
| Validation.CollectErrors | app.py:140-190 | the loops and branches build exactly the `Errors` list, field messages first, then baseline, education, PCD, FUNAI |
| Requirements.Required | app.py:161-190 | which documents must be PDFs: the eight baseline documents always, the diploma for a higher-education role, the schooling proof for the other tiers, the PCD report and FUNAI declaration when answered "Sim", never military, post-graduate or experience; defined without reference to the messages |
| Requirements.Acceptable | app.py:146-192 | every field passes and every required document is a PDF; ErrorsEmptyIff proves it equivalent to an empty `erros` |
| Requirements.ExtraDocuments | app.py:174-190 | the documents beyond the baseline are exactly the required non-baseline ones (diploma iff higher-education tier, schooling iff another tier, PCD report iff PCD, FUNAI iff indigenous), none repeated, one per condition |
| Requirements.RequiredDocuments | app.py:161-190 | a document is on the list iff the rule `Required` asks for it: the 8 baseline documents always, the education document of the tier, the declarations when declared, never military, post-graduate or experience |
| Requirements.RequiredDocumentsCount | app.py:161-190 | no document is listed twice and there are 8 + tier + PCD + FUNAI of them |
| Requirements.FieldFailuresMembers | app.py:157-158 | a message is in the field part iff some entry failed with that key |
| Requirements.FieldFailuresEmpty | app.py:157-158 | the field part is empty iff every entry passed |
| Requirements.DocumentFailuresMembers | app.py:171-172 | a message is in the document part iff some check failed with it |
| Requirements.DocumentFailuresEmpty | app.py:171-172 | the document part is empty iff every check passed |
| Requirements.FieldMessageInjective | app.py:146-158 | two fields never produce the same message |
| Requirements.FieldInOrder | app.py:146-156 | every field is an entry of `obrigatorios` |
| Requirements.FailedRequiredCheck | app.py:102-106 | a required check fails iff the file is not a PDF, with "missing" for an absent file and "not PDF" otherwise |
| Requirements.BaselineFailuresSound | app.py:161-172 | every baseline message comes from an absent or non-PDF baseline document |
| Requirements.BaselineFailuresComplete | app.py:161-172 | every absent or non-PDF baseline document contributes its message |
| Requirements.BaselineFailures | app.py:161-172 | the baseline part holds "missing" iff some baseline document is absent and "not PDF" iff some is of another type, nothing else |
| Requirements.MessageKinds | app.py:141-190 | every message in `erros` is the message of a failed field or one of the six fixed texts |
| Requirements.FieldMessageOnlyFromFields | app.py:141-190 | a "<key> é obrigatório." message is in `erros` iff the field loop added it |
| Requirements.FieldFailureOf | app.py:146-158 | the field loop adds a field's message iff that field fails |
| Requirements.FieldRule | app.py:146-158 | "<key> é obrigatório." is in `erros` iff that field fails |
| Requirements.FieldMeaning | app.py:148-155 | CPF passes iff its digits number 11; role passes iff it is not the placeholder; the consents pass iff ticked |
| Requirements.TextFieldsMeaning | app.py:147-152 | name, RG, address, phone and e-mail pass iff they hold a non-whitespace character |
| Requirements.MissingDocumentRule | app.py:161-172 | "Documento obrigatório ausente." is in `erros` iff some baseline document is absent |
| Requirements.NotPdfRule | app.py:161-172 | "Arquivo deve ser PDF." is in `erros` iff some baseline document has another content type |
| Requirements.MissingOrNotPdf | app.py:141-172 | those two messages come only from the baseline checks |
| Requirements.EducationRule | app.py:175-181 | the diploma message iff higher-education tier and no PDF diploma; the schooling message iff another tier and no PDF schooling proof; neither for the placeholder |
| Requirements.DeclarationRule | app.py:184-190 | the PCD message iff PCD is "Sim" and no PDF report; the FUNAI message iff Indígena is "Sim" and no PDF declaration |
| Requirements.FixedOutsideFieldsAndBaseline | app.py:174-190 | the education and declaration messages come only from their own rules |
| Requirements.FieldsPass | app.py:146-158 | the field part is empty iff all nine fields pass |
| Requirements.BaselinePass | app.py:161-172 | the baseline part is empty iff all eight baseline documents are PDFs |
| Requirements.EducationPass | app.py:175-181 | the education part is empty iff the education document the tier requires, if any, is a PDF |
| Requirements.DeclarationPass | app.py:184-190 | the declaration part is empty iff each declared document is a PDF |
| Requirements.RequiredSplit | app.py:161-190 | every required document is a PDF iff the baseline ones and the four conditional ones are |
| Requirements.ErrorsEmptyIff | app.py:140-192 | `erros` is empty iff all nine fields pass and every required document is a PDF |
| Requirements.AcceptedMeansComplete | app.py:140-192 | an accepted submission has an 11-digit CPF, a chosen role, both consents and all baseline PDFs |
| Requirements.UnvalidatedInputs | app.py:60-78 | changing the military, post-graduate or experience uploads, the locality or the experience answer leaves `erros` unchanged |
| Requirements.SameErrors | app.py:140-190 | `erros` depends only on the nine fields, the two answers and the twelve checked uploads |
| Requirements.DisplayedOnce | app.py:194 | each message is displayed once, however many documents triggered it |
| Requirements.DisplayedEmptyIff | app.py:192-195 | nothing is displayed iff the submission is acceptable |
| Requirements.OnlyDiplomaMissing | app.py:175-177 | a higher-education applicant whose only fault is the missing diploma is shown exactly the diploma message |
| Storage.Join | app.py:227-232 | an absolute second part replaces the first; otherwise exactly `a + b` when the first part is empty or ends in '/', and `a + "/" + b` otherwise |
| Storage.SlotPath | app.py:226-232 | a slot's path ends with its file name and, unless the key is absolute, starts with `inscricoes/` |
| Storage.JoinUnderRoot | app.py:226-232 | joining a relative name under `inscricoes/<key>` ends with the name and stays under `inscricoes/` for a relative key |
| Storage.SavedPaths | app.py:236-252 | every slot has an entry; an entry is a path iff the slot was uploaded; the slots with a path are exactly the uploaded ones |
| Storage.SavedPathOf | app.py:230-234 | an uploaded slot's entry is its slot path |
| Storage.SlotPathShape | app.py:226-232 | with a non-empty digit key the path is `inscricoes/<key>/<file name>` |
| Storage.EmptyKeyPath | app.py:226-232 | with an empty key the path is `inscricoes/<file name>` |
| Storage.SlotPathsDistinct | app.py:230-252 | two slots of one applicant never share a path |
| Storage.FoldersDistinct | app.py:226-227 | different digit keys give different folders |
| Protocol.Pad | app.py:254 | a number padded to a width has exactly that many digits |
| Protocol.ParsePad | app.py:254 | reading a padded number back gives the number |
| Protocol.Stamp | app.py:254 | `strftime('%Y%m%d%H%M%S')` is 14 digits |
| Protocol.StampRoundTrip | app.py:254 | the six fields can be read back from the stamp |
| Protocol.StampInjective | app.py:254 | different instants give different stamps |
| Protocol.ProtocolCode | app.py:254 | the code is `ILH-Saude-`, then the key, then '-', then the 14-digit stamp, at those positions |
| Protocol.ProtocolRoundTrip | app.py:254 | with an 11-digit key the code is `ILH-Saude-<11 digits>-<14 digits>` and gives back the key and the instant |
| Pipeline.Submit | app.py:192-256 | rejected iff not acceptable, with a non-empty, sorted, duplicate-free list of exactly the `erros` messages; when accepted, every slot has an entry, a path exactly for the uploaded ones, and the database outcome is passed through unchanged |
| Pipeline.DatabaseOutcomeIgnored | app.py:197-256 | acceptance, the stored paths and the protocol are the same whatever the database step did |
| Pipeline.AcceptedProtocol | app.py:254 | an accepted submission's protocol has the documented shape and gives back the CPF digits and the instant |
| Pipeline.AcceptedStorage | app.py:226-252 | an accepted submission stores every required document; each upload goes to `inscricoes/<cpf digits>/<file name>`; no two slots share a path |

## Left out

- The Streamlit page, form and widgets (app.py:8-94) and every `st.error`, `st.success`, `st.info` and `st.write` call: UI. Only the list of validation messages shown is modelled. The form sets the PCD and FUNAI uploads to `None` unless the answer is "Sim"; this is form code, and the model takes the uploads as given.
- The PostgreSQL connection, `CREATE TABLE`, `INSERT`, `commit` and `rollback` (app.py:109-138, 198-224): database I/O. Its result is the input `Pipeline.DbOutcome`. CPF uniqueness is enforced by the table's `UNIQUE` constraint, not by code, so "a second submission with the same CPF is refused" is not a property of this model. The inserted row, including the birth date (which is only stored there), is not modelled.
- `os.makedirs` and the file writes (app.py:227-233): file-system I/O. Only the paths in `saved` are modelled. A write failure would end the branch before the protocol is shown; this is not modelled.
- `datetime.datetime.now()` (app.py:210, 254): the clock is the `now` parameter.
- Protocol.ValidTimestamp: years before 1000 are excluded, because `%Y` is not zero-padded there on common C libraries and `now()` never gives them.
- Normalizer.IsDigit: ASCII digits only. Python's `\D` also keeps other Unicode decimal digits (Arabic-Indic, fullwidth, …), which the model treats as non-digits.
- Storage.Join: POSIX separators only; Windows drive letters and backslashes are not modelled.
- The unused imports and the malformed `import slugify from slugify` (app.py:3-5): no bearing on the logic.
- Concurrent submitters racing on one CPF: a database concern.
