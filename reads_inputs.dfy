/**
 * The import-job input record and the loader that turns the rows of the
 * input table into such records (upload_and_assemble.py, lines 27-54).
 */
module ReadsInputs {
  import opened Wrappers

  /** One parsed row of the input table, keyed by column header. */
  type Row = map<string, string>

  const FWD_COLUMN: string := "fastq_fwd_staging_file_name"
  const REV_COLUMN: string := "fastq_rev_staging_file_name"
  const NAME_COLUMN: string := "name"

  /** The narrative every import is written to. */
  const WORKSPACE_NAME: string := "bsadkhin:narrative_1598898899343"

  /** The parameters of one FASTQ/SRA-to-Reads import job. */
  datatype ReadsInput = ReadsInput(
    fastqFwdStagingFileName: string,
    fastqRevStagingFileName: string,
    name: string,
    workspaceName: string,
    sequencingTech: string,
    importType: string,
    insertSizeMean: Option<int>,
    insertSizeStdDev: Option<int>,
    interleaved: int,
    readOrientationOutward: int,
    singleGenome: int,
    sraStagingFileName: string)

  /** The record built with only the four required fields; every other field takes its declared default. */
  function NewReadsInput(fwd: string, rev: string, name: string, workspace: string): ReadsInput
  {
    ReadsInput(fwd, rev, name, workspace, "Illumina", "FASTQ/FASTA", None, None, 0, 0, 1, "")
  }

  /** Every optional field of `x` holds its declared default. */
  predicate HasDefaults(x: ReadsInput)
  {
    && x.sequencingTech == "Illumina"
    && x.importType == "FASTQ/FASTA"
    && x.insertSizeMean == None
    && x.insertSizeStdDev == None
    && x.interleaved == 0
    && x.readOrientationOutward == 0
    && x.singleGenome == 1
    && x.sraStagingFileName == ""
  }

  /**
   * The first required column that `row` lacks, in the order the loader
   * reads them; reading it is where the loader raises `KeyError`.
   */
  function MissingColumn(row: Row): Option<string>
  {
    if FWD_COLUMN !in row then Some(FWD_COLUMN)
    else if REV_COLUMN !in row then Some(REV_COLUMN)
    else if NAME_COLUMN !in row then Some(NAME_COLUMN)
    else None
  }

  /** `x` is the record the loader builds from `row`. */
  predicate BuiltFrom(x: ReadsInput, row: Row)
  {
    && MissingColumn(row).None?
    && x.fastqFwdStagingFileName == row[FWD_COLUMN]
    && x.fastqRevStagingFileName == row[REV_COLUMN]
    && x.name == row[NAME_COLUMN]
    && x.workspaceName == WORKSPACE_NAME
    && HasDefaults(x)
  }

  /** No row before index `i` lacks a required column. */
  predicate ReadableUpTo(rows: seq<Row>, i: nat)
    requires i <= |rows|
  {
    forall j :: 0 <= j < i ==> MissingColumn(rows[j]).None?
  }

  /**
   * What loading `rows` yields: one record per row, in row order, or the
   * `KeyError` raised at the first row that lacks a required column.
   */
  function ReadsInputsFrom(rows: seq<Row>): (r: Result<seq<ReadsInput>, string>)
    ensures r.Success? <==> ReadableUpTo(rows, |rows|)
    ensures r.Success? ==>
      |r.value| == |rows| && forall i :: 0 <= i < |rows| ==> BuiltFrom(r.value[i], rows[i])
  {
    if rows == [] then Success([])
    else
      var n := |rows| - 1;
      var row := rows[n];
      assert rows[..n] + [row] == rows;
      match ReadsInputsFrom(rows[..n])
      case Failure(column) => Failure(column)
      case Success(prefix) =>
        match MissingColumn(row)
        case Some(column) => Failure(column)
        case None =>
          Success(prefix + [NewReadsInput(row[FWD_COLUMN], row[REV_COLUMN], row[NAME_COLUMN], WORKSPACE_NAME)])
  }

  /** A failed load names a missing column of the first row that lacks one. */
  lemma {:induction false} LoadErrorIsFirstMissingColumn(rows: seq<Row>)
    requires ReadsInputsFrom(rows).Failure?
    ensures exists i :: 0 <= i < |rows| && ReadableUpTo(rows, i) && MissingColumn(rows[i]) == Some(ReadsInputsFrom(rows).error)
  {
    var n := |rows| - 1;
    var prefix := rows[..n];
    if ReadsInputsFrom(prefix).Failure? {
      LoadErrorIsFirstMissingColumn(prefix);
      var i :| 0 <= i < |prefix| && ReadableUpTo(prefix, i) && MissingColumn(prefix[i]) == Some(ReadsInputsFrom(prefix).error);
      assert rows[i] == prefix[i];
      assert ReadableUpTo(rows, i);
    } else {
      assert ReadableUpTo(rows, n);
    }
  }

  /** Once a prefix of the rows raises, later rows are never read: the whole load raises the same error. */
  lemma {:induction false} LoadStopsAtFirstError(rows: seq<Row>, i: nat)
    requires i <= |rows| && ReadsInputsFrom(rows[..i]).Failure?
    ensures ReadsInputsFrom(rows) == ReadsInputsFrom(rows[..i])
    decreases |rows| - i
  {
    if i < |rows| {
      assert rows[..i + 1][..i] == rows[..i];
      assert rows[..i + 1] == rows[..i] + [rows[i]];
      LoadStopsAtFirstError(rows, i + 1);
    } else {
      assert rows[..i] == rows;
    }
  }

  /**
   * The loader: appends one record per row, stopping with the column name
   * of the first `KeyError`.
   */
  method GetFastqToReadsInputs(rows: seq<Row>) returns (r: Result<seq<ReadsInput>, string>)
    ensures r == ReadsInputsFrom(rows)
  {
    var uploaderInputs: seq<ReadsInput> := [];
    for i := 0 to |rows|
      invariant ReadsInputsFrom(rows[..i]) == Success(uploaderInputs)
    {
      assert rows[..i + 1][..i] == rows[..i];
      var row := rows[i];
      if MissingColumn(row).Some? {
        LoadStopsAtFirstError(rows, i + 1);
        return Failure(MissingColumn(row).value);
      }
      var uploadInput := NewReadsInput(row[FWD_COLUMN], row[REV_COLUMN], row[NAME_COLUMN], WORKSPACE_NAME);
      uploaderInputs := uploaderInputs + [uploadInput];
    }
    assert rows[..|rows|] == rows;
    return Success(uploaderInputs);
  }
}
