/**
 * What happens after validation (app.py:192-256): a submission with any error is
 * rejected with the displayed list; otherwise the database step runs, then the
 * uploads are stored and the protocol number is issued, whatever the database
 * step did.
 */
module Pipeline {
  import opened Wrappers
  import opened Normalizer
  import opened Text
  import opened Documents
  import opened Validation
  import opened Requirements
  import opened Storage
  import opened Protocol

  /**
   * How the database step ended: the row was inserted, the connection or table
   * creation failed (`conectar_db_e_criar_tabela` returned `None`), the CPF was
   * already registered (`UniqueViolation`), or another error was raised.
   */
  datatype DbOutcome = Inserted | ConnectionFailed | DuplicateCpf | OtherFailure

  datatype Outcome =
    | Rejected(messages: seq<string>)
    | Accepted(db: DbOutcome, saved: map<Slot, Option<string>>, protocol: string)

  /** The `if erros: ... else: ...` branch, with the database's answer and the clock as inputs. */
  function Submit(sub: Submission, db: DbOutcome, now: Timestamp): (r: Outcome)
    ensures r.Rejected? <==> !Acceptable(sub)
    ensures r.Rejected? ==>
      (r.messages != [] && StrictlySorted(r.messages) && forall m :: m in r.messages <==> m in Errors(sub))
    ensures r.Accepted? ==> r.db == db && forall s :: s in r.saved && (r.saved[s].Some? <==> s in sub.uploads)
  {
    DisplayedEmptyIff(sub);
    ErrorsEmptyIff(sub);
    if Errors(sub) != [] then
      Rejected(Displayed(sub))
    else
      var cpfKey := Normalize(Some(sub.cpf));
      Accepted(db, SavedPaths(cpfKey, sub.uploads), ProtocolCode(cpfKey, now))
  }

  /** Acceptance, the stored paths and the protocol do not depend on the database step. */
  lemma DatabaseOutcomeIgnored(sub: Submission, db1: DbOutcome, db2: DbOutcome, now: Timestamp)
    ensures Submit(sub, db1, now).Accepted? <==> Submit(sub, db2, now).Accepted?
    ensures Submit(sub, db1, now).Accepted? ==>
      Submit(sub, db1, now).saved == Submit(sub, db2, now).saved
      && Submit(sub, db1, now).protocol == Submit(sub, db2, now).protocol
  {
  }

  /**
   * An accepted submission's protocol is `ILH-Saude-<11 digits>-<14 digits>` and
   * gives back the CPF's digits and the submission instant.
   */
  lemma AcceptedProtocol(sub: Submission, db: DbOutcome, now: Timestamp)
    requires ValidTimestamp(now)
    requires Submit(sub, db, now).Accepted?
    ensures IsProtocolShape(Submit(sub, db, now).protocol)
    ensures ParseProtocol(Submit(sub, db, now).protocol) == (KeepDigits(sub.cpf), now)
  {
    ErrorsEmptyIff(sub);
    AcceptedMeansComplete(sub);
    ProtocolRoundTrip(KeepDigits(sub.cpf), now);
  }

  /**
   * An accepted submission stores every required document, and every other upload
   * it carries, at `inscricoes/<cpf digits>/<file name>`; slots without an upload
   * are `None`; no two slots share a path.
   */
  lemma AcceptedStorage(sub: Submission, db: DbOutcome, now: Timestamp)
    requires Submit(sub, db, now).Accepted?
    ensures var saved := Submit(sub, db, now).saved;
      forall s :: RequiredOf(sub, s) ==> saved[s].Some?
    ensures var saved := Submit(sub, db, now).saved;
      forall s :: s in sub.uploads ==> saved[s] == Some(Root + "/" + KeepDigits(sub.cpf) + "/" + FileName(s))
    ensures var saved := Submit(sub, db, now).saved;
      forall s, t :: s != t && saved[s].Some? && saved[t].Some? ==> saved[s] != saved[t]
  {
    var key := KeepDigits(sub.cpf);
    var saved := Submit(sub, db, now).saved;
    ErrorsEmptyIff(sub);
    AcceptedMeansComplete(sub);
    forall s | s in sub.uploads
      ensures saved[s] == Some(Root + "/" + key + "/" + FileName(s))
    {
      SavedPathOf(key, sub.uploads, s);
      SlotPathShape(key, s);
    }
    forall s, t | s != t && saved[s].Some? && saved[t].Some?
      ensures saved[s] != saved[t]
    {
      SavedPathOf(key, sub.uploads, s);
      SavedPathOf(key, sub.uploads, t);
      SlotPathsDistinct(key, s, t);
    }
  }
}
