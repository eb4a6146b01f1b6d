/** Collected configuration evidence and its comparable form: the rows of pg_settings and
    pg_file_settings, the filter for image lines that reconstruction repeats, and the
    signature (services/sandbox_poc/provenance.py). */
module Evidence {
  import opened Wrappers

  datatype File = Conf | Auto | OtherFile(path: string)

  /** pg_settings.source: 'default', 'configuration file', or anything else. */
  datatype Source = BuiltIn | ConfigFile | OtherSource

  datatype Context = Internal | Postmaster | Reloadable

  /** The compared columns of one pg_settings row. */
  datatype Fields = Fields(
    setting: string, source: Source, sourcefile: Option<File>, context: Context, pendingRestart: bool)

  datatype SettingRow = SettingRow(name: string, fields: Fields, sanitised: bool)

  /** One pg_file_settings row; `error` is whether PostgreSQL reported one. */
  datatype FileRow = FileRow(
    name: string, setting: string, file: File, line: Option<nat>, applied: bool, error: bool)

  datatype Snapshot = Snapshot(settings: seq<SettingRow>, files: Option<seq<FileRow>>, gaps: seq<string>)

  datatype FileSig = FileSig(name: string, setting: string, file: File, applied: bool, error: bool)

  /** The file rows are compared as a sorted list, that is, as a multiset. */
  datatype Signature = Signature(settings: map<string, Fields>, files: multiset<FileSig>)

  // -------------------------------------------------------------------------
  // The shadowed-duplicate filter
  // -------------------------------------------------------------------------

  predicate SameEntry(a: FileRow, b: FileRow) {
    a.name == b.name && a.file == b.file && a.setting == b.setting
  }

  predicate Shadows(row: FileRow, other: FileRow) {
    && !other.error
    && SameEntry(row, other)
    && (other.applied || (row.line.Some? && other.line.Some? && other.line.value > row.line.value))
  }

  predicate Shadowed(files: seq<FileRow>, i: nat)
    requires i < |files|
  {
    && !files[i].applied
    && !files[i].error
    && exists j :: 0 <= j < |files| && j != i && Shadows(files[i], files[j])
  }

  lemma {:induction false} ShadowedBy(files: seq<FileRow>, i: nat, j: nat)
    requires i < |files| && j < |files|
    ensures i != j && !files[i].applied && !files[i].error && Shadows(files[i], files[j]) ==> Shadowed(files, i)
  {
  }

  function Filtered(files: seq<FileRow>, k: nat := |files|): (kept: seq<FileRow>)
    requires k <= |files|
  {
    if k == 0 then []
    else Filtered(files, k - 1) + (if Shadowed(files, k - 1) then [] else [files[k - 1]])
  }

  function Projection(row: FileRow): FileSig {
    FileSig(row.name, row.setting, row.file, row.applied, row.error)
  }

  function FileSignature(files: seq<FileRow>, names: seq<string>, k: nat := |files|): (sig: multiset<FileSig>)
    requires k <= |files|
  {
    if k == 0 then multiset{}
    else
      FileSignature(files, names, k - 1)
      + (if files[k - 1].name in names && !Shadowed(files, k - 1)
         then multiset{Projection(files[k - 1])} else multiset{})
  }

  /** setting_rows: a dictionary, so the last row of a name wins. */
  function Rows(settings: seq<SettingRow>): (m: map<string, SettingRow>)
    ensures m.Keys == set r | r in settings :: r.name
  {
    if settings == [] then map[]
    else
      var last := settings[|settings| - 1];
      assert settings == settings[..|settings| - 1] + [last];
      Rows(settings[..|settings| - 1])[last.name := last]
  }

  /** catalog_signature: the settings that have no row are left out. */
  function CatalogSignature(snapshot: Snapshot, names: seq<string>): (r: Option<Signature>) {
    var rows := Rows(snapshot.settings);
    if snapshot.files.None? then None
    else
      Some(Signature(map n | n in names && n in rows :: rows[n].fields, FileSignature(snapshot.files.value, names)))
  }

  /** signature; a missing row or missing file evidence raises in the source. */
  function SignatureOf(snapshot: Snapshot, names: seq<string>): (r: Option<Signature>) {
    if exists n | n in names :: n !in Rows(snapshot.settings) then None else CatalogSignature(snapshot, names)
  }

  // -------------------------------------------------------------------------
  // What last-line-wins resolution leaves in the evidence
  // -------------------------------------------------------------------------

  /** Every line of a file has its own number, and at most one line per name is applied. */
  ghost predicate LastLineWins(files: seq<FileRow>) {
    && (forall i :: 0 <= i < |files| ==> files[i].line.Some?)
    && (forall i, j :: 0 <= i < |files| && 0 <= j < |files| && i != j && files[i].file == files[j].file ==>
          files[i].line != files[j].line)
    && (forall i, j :: 0 <= i < |files| && 0 <= j < |files| && i != j && files[i].name == files[j].name ==>
          !(files[i].applied && files[j].applied))
  }

  lemma {:induction false} FilteredMember(files: seq<FileRow>, k: nat, row: FileRow)
    requires k <= |files|
    ensures row in Filtered(files, k) <==> exists i :: 0 <= i < k && files[i] == row && !Shadowed(files, i)
  {
    if k > 0 {
      FilteredMember(files, k - 1, row);
    }
  }

  function MaxLine(files: seq<FileRow>): (m: nat)
    ensures forall r :: r in files && r.line.Some? ==> r.line.value <= m
  {
    if files == [] then 0
    else
      var m := MaxLine(files[1..]);
      assert forall r :: r in files ==> r == files[0] || r in files[1..];
      match files[0].line
      case None => m
      case Some(l) => if l > m then l else m
  }

  /** Following the shadowing rows from any error-free row ends in a kept row of the same entry. */
  lemma {:induction false} KeptRepresentative(files: seq<FileRow>, i: nat) returns (k: nat)
    requires LastLineWins(files) && i < |files| && !files[i].error
    ensures k < |files| && SameEntry(files[i], files[k]) && !files[k].error && !Shadowed(files, k)
    decreases MaxLine(files) - files[i].line.value
  {
    if !Shadowed(files, i) {
      k := i;
    } else {
      var j :| 0 <= j < |files| && j != i && Shadows(files[i], files[j]);
      if files[j].applied {
        k := j;
      } else {
        assert files[j] in files;
        k := KeptRepresentative(files, j);
      }
    }
  }

  /** Two kept error-free rows of the same entry are the same row. */
  lemma {:induction false} KeptUnique(files: seq<FileRow>, i: nat, j: nat)
    requires LastLineWins(files) && i < |files| && j < |files|
    requires SameEntry(files[i], files[j]) && !files[i].error && !files[j].error
    requires !Shadowed(files, i) && !Shadowed(files, j)
    ensures i == j
  {
    ShadowedBy(files, i, j);
    ShadowedBy(files, j, i);
  }

  /** The filter keeps exactly one row of every error-free (file, name, value). */
  lemma {:induction false} ExactlyOneKept(files: seq<FileRow>, i: nat)
    requires LastLineWins(files) && i < |files| && !files[i].error
    ensures exists k ::
              && 0 <= k < |files| && SameEntry(files[i], files[k]) && !files[k].error && !Shadowed(files, k)
              && (forall j | 0 <= j < |files| && SameEntry(files[i], files[j]) && !files[j].error
                             && !Shadowed(files, j) :: j == k)
  {
    var k := KeptRepresentative(files, i);
    forall j | 0 <= j < |files| && SameEntry(files[i], files[j]) && !files[j].error && !Shadowed(files, j)
      ensures j == k
    {
      KeptUnique(files, j, k);
    }
  }

  /** Filtering again removes nothing, whatever the evidence. */
  lemma {:induction false} FilterIdempotent(files: seq<FileRow>)
    ensures Filtered(Filtered(files)) == Filtered(files)
  {
    var kept := Filtered(files);
    forall i | 0 <= i < |kept|
      ensures !Shadowed(kept, i)
    {
      FilteredNeverShadowed(files, i);
    }
    NothingShadowed(kept, |kept|);
  }

  lemma {:induction false} NothingShadowed(files: seq<FileRow>, k: nat)
    requires k <= |files|
    requires forall i :: 0 <= i < |files| ==> !Shadowed(files, i)
    ensures Filtered(files, k) == files[..k]
  {
    if k > 0 {
      NothingShadowed(files, k - 1);
    }
  }

  /** Each kept row comes from its own position. */
  lemma {:induction false} FilteredOrigin(files: seq<FileRow>, k: nat, i: nat, j: nat) returns (a: nat, b: nat)
    requires k <= |files|
    requires i < |Filtered(files, k)| && j < |Filtered(files, k)| && i != j
    ensures a < k && b < k && a != b
    ensures files[a] == Filtered(files, k)[i] && !Shadowed(files, a)
    ensures files[b] == Filtered(files, k)[j] && !Shadowed(files, b)
  {
    var before := Filtered(files, k - 1);
    if i < |before| && j < |before| {
      a, b := FilteredOrigin(files, k - 1, i, j);
    } else if i < |before| {
      FilteredMember(files, k - 1, before[i]);
      a :| 0 <= a < k - 1 && files[a] == before[i] && !Shadowed(files, a);
      b := k - 1;
    } else {
      FilteredMember(files, k - 1, before[j]);
      b :| 0 <= b < k - 1 && files[b] == before[j] && !Shadowed(files, b);
      a := k - 1;
    }
  }

  lemma {:induction false} FilteredNeverShadowed(files: seq<FileRow>, i: nat)
    requires i < |Filtered(files)|
    ensures !Shadowed(Filtered(files), i)
  {
    var kept := Filtered(files);
    if Shadowed(kept, i) {
      var j :| 0 <= j < |kept| && j != i && Shadows(kept[i], kept[j]);
      var a, b := FilteredOrigin(files, |files|, i, j);
      ShadowedBy(files, a, b);
      assert false;
    }
  }

  /** The effective value of a name: the setting of its applied line. */
  ghost predicate ResolvesTo(files: seq<FileRow>, name: string, value: string) {
    exists r :: r in files && r.name == name && r.applied && r.setting == value
  }

  /** What the name falls back to in `file`: its highest-numbered error-free line there. */
  ghost predicate FallsBackTo(files: seq<FileRow>, name: string, file: File, value: string) {
    exists r :: r in files && IsLastLine(files, r, name, file) && r.setting == value
  }

  ghost predicate IsLastLine(files: seq<FileRow>, r: FileRow, name: string, file: File) {
    && r.name == name && r.file == file && !r.error && r.line.Some?
    && forall o :: o in files && o.name == name && o.file == file && !o.error && o.line.Some? ==>
                     o.line.value <= r.line.value
  }

  /** The applied line of a name, when there is one, is the last error-free line of its file. */
  ghost predicate AppliedIsLast(files: seq<FileRow>) {
    forall r :: r in files && r.applied ==> IsLastLine(files, r, r.name, r.file)
  }

  /** Dropping shadowed rows changes neither what a name resolves to nor what either file falls
      back to once the other file's line is removed (ALTER SYSTEM RESET). */
  lemma {:induction false} FilterPreservesResolution(files: seq<FileRow>, name: string, file: File, value: string)
    requires LastLineWins(files) && AppliedIsLast(files)
    ensures ResolvesTo(files, name, value) <==> ResolvesTo(Filtered(files), name, value)
    ensures FallsBackTo(files, name, file, value) <==> FallsBackTo(Filtered(files), name, file, value)
  {
    FilterKeepsApplied(files, name, value);
    var kept := Filtered(files);
    forall r: FileRow ensures r in kept ==> r in files {
      FilteredMember(files, |files|, r);
    }
    if FallsBackTo(files, name, file, value) {
      var r :| r in files && IsLastLine(files, r, name, file) && r.setting == value;
      LastLineKept(files, r, name, file);
      assert IsLastLine(kept, r, name, file);
    }
    if FallsBackTo(kept, name, file, value) {
      var r :| r in kept && IsLastLine(kept, r, name, file) && r.setting == value;
      var top := LastLineExists(files, r, name, file);
      LastLineKept(files, top, name, file);
      assert top.line == r.line;
      assert IsLastLine(files, r, name, file);
    }
  }

  lemma {:induction false} FilterKeepsApplied(files: seq<FileRow>, name: string, value: string)
    ensures ResolvesTo(files, name, value) <==> ResolvesTo(Filtered(files), name, value)
  {
    forall r: FileRow ensures r.applied ==> (r in Filtered(files) <==> r in files) {
      FilteredMember(files, |files|, r);
      if r.applied && r in files {
        var i :| 0 <= i < |files| && files[i] == r;
        assert !Shadowed(files, i);
      }
    }
  }

  lemma {:induction false} AppliedLine(files: seq<FileRow>, r: FileRow)
    requires AppliedIsLast(files) && r in files
    ensures r.applied ==> IsLastLine(files, r, r.name, r.file)
  {
  }

  lemma {:induction false} LastLineKept(files: seq<FileRow>, r: FileRow, name: string, file: File)
    requires LastLineWins(files) && AppliedIsLast(files) && r in files && IsLastLine(files, r, name, file)
    ensures r in Filtered(files)
  {
    var i :| 0 <= i < |files| && files[i] == r;
    if Shadowed(files, i) {
      var j :| 0 <= j < |files| && j != i && Shadows(files[i], files[j]);
      AppliedLine(files, files[j]);
      assert false;
    }
    FilteredMember(files, |files|, r);
  }

  lemma {:induction false} LastLineExists(files: seq<FileRow>, r: FileRow, name: string, file: File)
    returns (top: FileRow)
    requires r in files && r.name == name && r.file == file && !r.error && r.line.Some?
    ensures top in files && IsLastLine(files, top, name, file)
    decreases MaxLine(files) - r.line.value
  {
    if o :| o in files && o.name == name && o.file == file && !o.error && o.line.Some?
            && o.line.value > r.line.value {
      top := LastLineExists(files, o, name, file);
    } else {
      top := r;
    }
  }

  // -------------------------------------------------------------------------
  // Comparing file signatures
  // -------------------------------------------------------------------------

  ghost predicate KeptAt(files: seq<FileRow>, names: seq<string>, i: nat, x: FileSig) {
    i < |files| && files[i].name in names && !Shadowed(files, i) && Projection(files[i]) == x
  }

  ghost predicate Kept(files: seq<FileRow>, names: seq<string>, x: FileSig) {
    exists i: nat :: KeptAt(files, names, i, x)
  }

  /** No two rows left by the filter compare equal, so each counts once. */
  ghost predicate DistinctKept(files: seq<FileRow>, names: seq<string>) {
    forall i: nat, j: nat, x :: KeptAt(files, names, i, x) && KeptAt(files, names, j, x) ==> i == j
  }

  lemma {:induction false} SignatureStep(files: seq<FileRow>, names: seq<string>, k: nat, x: FileSig)
    requires k < |files|
    ensures x in FileSignature(files, names, k + 1) <==>
              x in FileSignature(files, names, k) || KeptAt(files, names, k, x)
  {
  }

  ghost predicate KeptBefore(files: seq<FileRow>, names: seq<string>, k: nat, x: FileSig) {
    exists i: nat :: i < k && KeptAt(files, names, i, x)
  }

  lemma {:induction false} KeptBeforeStep(files: seq<FileRow>, names: seq<string>, k: nat, x: FileSig)
    ensures KeptBefore(files, names, k + 1, x) <==> KeptBefore(files, names, k, x) || KeptAt(files, names, k, x)
  {
  }

  lemma {:induction false} SignatureMember(files: seq<FileRow>, names: seq<string>, k: nat, x: FileSig)
    requires k <= |files|
    ensures x in FileSignature(files, names, k) <==> KeptBefore(files, names, k, x)
  {
    if k > 0 {
      SignatureMember(files, names, k - 1, x);
      SignatureStep(files, names, k - 1, x);
      KeptBeforeStep(files, names, k - 1, x);
    }
  }

  lemma {:induction false} SignatureCount(files: seq<FileRow>, names: seq<string>, k: nat, x: FileSig)
    requires k <= |files| && DistinctKept(files, names)
    ensures FileSignature(files, names, k)[x] <= 1
  {
    if k > 0 {
      SignatureCount(files, names, k - 1, x);
      if KeptAt(files, names, k - 1, x) {
        CountedOnce(files, names, k - 1, x);
      }
    }
  }

  lemma {:induction false} CountedOnce(files: seq<FileRow>, names: seq<string>, k: nat, x: FileSig)
    requires k < |files| && DistinctKept(files, names) && KeptAt(files, names, k, x)
    ensures FileSignature(files, names, k)[x] == 0
  {
    SignatureMember(files, names, k, x);
    if i: nat :| i < k && KeptAt(files, names, i, x) {
      assert false;
    }
  }

  lemma {:induction false} SignatureKept(files: seq<FileRow>, names: seq<string>, x: FileSig)
    ensures x in FileSignature(files, names) <==> Kept(files, names, x)
  {
    SignatureMember(files, names, |files|, x);
  }

  /** Signatures of evidence whose kept rows are distinct are equal when they have the same members. */
  lemma {:induction false} SameFileSignature(a: seq<FileRow>, b: seq<FileRow>, names: seq<string>)
    requires DistinctKept(a, names) && DistinctKept(b, names)
    requires forall x :: Kept(a, names, x) <==> Kept(b, names, x)
    ensures FileSignature(a, names) == FileSignature(b, names)
  {
    forall x: FileSig ensures FileSignature(a, names)[x] == FileSignature(b, names)[x] {
      SignatureKept(a, names, x);
      SignatureKept(b, names, x);
      SignatureCount(a, names, |a|, x);
      SignatureCount(b, names, |b|, x);
    }
  }

  lemma {:induction false} DifferentFileSignature(a: seq<FileRow>, b: seq<FileRow>, names: seq<string>, x: FileSig)
    requires Kept(a, names, x) && !Kept(b, names, x)
    ensures FileSignature(a, names) != FileSignature(b, names)
  {
    SignatureKept(a, names, x);
    SignatureKept(b, names, x);
  }

  /** Evidence in which only the last line of a name can be applied or in error. */
  lemma {:induction false} LastLineWinsIsDistinct(files: seq<FileRow>, names: seq<string>)
    requires LastLineWins(files)
    requires forall i, j :: 0 <= i < |files| && 0 <= j < |files| && i != j && files[i].error && files[j].error ==>
                              files[i].name != files[j].name
    ensures DistinctKept(files, names)
  {
    forall i: nat, j: nat, x | KeptAt(files, names, i, x) && KeptAt(files, names, j, x) ensures i == j {
      if !x.error {
        KeptUnique(files, i, j);
      }
    }
  }
}
