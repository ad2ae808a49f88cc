/**
 * Where accepted uploads are written (app.py:226-252): the folder
 * `inscricoes/<cpf digits>` and one fixed file name per slot. Only the paths are
 * modelled; the writes themselves are not.
 */
module Storage {
  import opened Wrappers
  import opened Normalizer
  import opened Documents

  const Root: string := "inscricoes"

  /** `posixpath.join(a, b)`: an absolute `b` replaces `a`; otherwise one '/' separates them. */
  function Join(a: string, b: string): (r: string)
    ensures b != [] && b[0] == '/' ==> r == b
    ensures (b == [] || b[0] != '/') ==> |r| >= |a| + |b| && r[..|a|] == a && r[|r| - |b|..] == b
    ensures (b == [] || b[0] != '/') && a != [] && a[|a| - 1] != '/' ==> r == a + "/" + b
    ensures (b == [] || b[0] != '/') && (a == [] || a[|a| - 1] == '/') ==> r == a + b
  {
    if b != [] && b[0] == '/' then b
    else if a == [] || a[|a| - 1] == '/' then a + b
    else a + "/" + b
  }

  /** The path `salvar` writes a slot's upload to: `os.path.join(base_dir, nome_arquivo)`. */
  function SlotPath(cpfKey: string, s: Slot): (r: string)
    ensures |r| >= |FileName(s)| && r[|r| - |FileName(s)|..] == FileName(s)
    ensures (cpfKey == [] || cpfKey[0] != '/') ==> |r| > |Root| && r[..|Root| + 1] == Root + "/"
  {
    FileNameShape(s);
    JoinUnderRoot(cpfKey, FileName(s));
    Join(Join(Root, cpfKey), FileName(s))
  }

  /** A relative name joined under `Root/<key>` ends with the name, and stays under `Root` unless the key is absolute. */
  lemma JoinUnderRoot(cpfKey: string, name: string)
    requires name != [] && name[0] != '/'
    ensures var r := Join(Join(Root, cpfKey), name);
      && |r| >= |name| && r[|r| - |name|..] == name
      && ((cpfKey == [] || cpfKey[0] != '/') ==> |r| > |Root| && r[..|Root| + 1] == Root + "/")
  {
    var folder := Join(Root, cpfKey);
    var r := Join(folder, name);
    if cpfKey == [] {
      assert folder == Root + "/";
      assert r == Root + "/" + name;
    } else if cpfKey[0] != '/' {
      assert folder == Root + "/" + cpfKey;
      assert r[..|folder|] == folder;
      assert r[..|Root| + 1] == folder[..|Root| + 1];
    }
  }

  /**
   * The `saved` dictionary: every slot, mapped to its path when something was
   * uploaded and to `None` otherwise (`salvar(None, ...)` and `... if doc else None`
   * both give `None`; an uploaded file object is always truthy).
   */
  function SavedPaths(cpfKey: string, uploads: map<Slot, File>): (saved: map<Slot, Option<string>>)
    ensures forall s :: s in saved
    ensures forall s :: saved[s].Some? <==> s in uploads
    ensures (set s | s in saved && saved[s].Some?) == uploads.Keys
  {
    var saved := map s | s in AllSlots :: if s in uploads then Some(SlotPath(cpfKey, s)) else None;
    assert forall s :: s in saved by {
      forall s ensures s in saved {
        AllSlotsComplete(s);
      }
    }
    saved
  }

  /** The stored value of an uploaded slot is its slot path. */
  lemma SavedPathOf(cpfKey: string, uploads: map<Slot, File>, s: Slot)
    requires s in uploads
    ensures SavedPaths(cpfKey, uploads)[s] == Some(SlotPath(cpfKey, s))
  {
    AllSlotsComplete(s);
  }

  /** With a non-empty digit key the path is `inscricoes/<key>/<file name>`. */
  lemma SlotPathShape(cpfKey: string, s: Slot)
    requires cpfKey != [] && AllDigits(cpfKey)
    ensures SlotPath(cpfKey, s) == Root + "/" + cpfKey + "/" + FileName(s)
  {
    FileNameShape(s);
    assert Join(Root, cpfKey) == Root + "/" + cpfKey;
    var folder := Root + "/" + cpfKey;
    assert folder[|folder| - 1] == cpfKey[|cpfKey| - 1];
  }

  /** With an empty key (a CPF without digits) the files would land directly in `inscricoes/`. */
  lemma EmptyKeyPath(s: Slot)
    ensures SlotPath("", s) == Root + "/" + FileName(s)
  {
    FileNameShape(s);
    assert Join(Root, "") == Root + "/";
  }

  /** Two slots of one applicant never share a path. */
  lemma SlotPathsDistinct(cpfKey: string, s: Slot, t: Slot)
    requires s != t
    ensures SlotPath(cpfKey, s) != SlotPath(cpfKey, t)
  {
    FileNameShape(s);
    FileNameShape(t);
    FileNamesDistinct(s, t);
  }

  /** Two applicants with different keys never share a folder, as long as the keys are digit strings. */
  lemma FoldersDistinct(k1: string, k2: string)
    requires AllDigits(k1) && AllDigits(k2) && k1 != k2
    ensures Join(Root, k1) != Join(Root, k2)
  {
    var f1, f2 := Join(Root, k1), Join(Root, k2);
    assert f1 == Root + "/" + k1 && f2 == Root + "/" + k2;
  }
}
