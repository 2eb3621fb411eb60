/**
 * The IDA benchmark converter (tools/ida_benchmark_to_libsvm_file_format.py): for
 * every train and test split 1..100, find the one data file and the one label file
 * the split's glob pattern matches, and merge them line by line into a LIBSVM file
 * named after their common base name.
 *
 * A file is given as the lines `readline()` returns, each ending in its newline
 * (the last one perhaps without it) and so never empty; `readline()` past the end
 * returns "".  The directory listing (`glob`), the file contents and `float()` are
 * parameters: `float()` as a function from a line to the value it reads, `None`
 * where it raises `ValueError`.
 */
module IdaConverter {
  import opened Results
  import opened Text

  // ---------------------------------------------------------------- finding the files

  /**
   * `find_matching_file_name`: no match raises `Exception`, more than one fails the
   * assertion, and a single match is the file.
   */
  function FindMatching(found: seq<string>): (r: Result<string>)
    ensures r.Ok? <==> |found| == 1
    ensures r.Ok? ==> r.value == found[0]
    ensures |found| == 0 ==> r == Err(PyException("Exception"))
    ensures |found| > 1 ==> r == Err(PyException("AssertionError"))
  {
    if |found| == 0 then Err(PyException("Exception"))
    else if |found| > 1 then Err(PyException("AssertionError"))
    else Ok(found[0])
  }

  /** Python's `s[:n]`: a negative n counts from the end, and the slice never overruns. */
  function SliceTo(s: string, n: int): string
  {
    if n >= 0 then s[..if n <= |s| then n else |s|]
    else s[..if |s| + n >= 0 then |s| + n else 0]
  }

  /** `name[:-len(pattern) + 1]`: the file name without the pattern's literal part. */
  function BaseName(name: string, pattern: string): string
  {
    SliceTo(name, -|pattern| + 1)
  }

  /**
   * A file the pattern `*suffix` matches, with at least one literal character,
   * loses exactly that suffix: what is left is what the `*` stood for.
   */
  lemma BaseNameStripsSuffix(base: string, pattern: string)
    requires |pattern| >= 2 && pattern[0] == '*'
    ensures BaseName(base + pattern[1..], pattern) == base
  {
    var name := base + pattern[1..];
    assert |name| + (-|pattern| + 1) == |base|;
    assert name[..|base|] == base;
  }

  // ---------------------------------------------------------------- one LIBSVM line

  /** `enumerate(words, from)` formatted as `"%i:%s"`. */
  function Numbered(ws: seq<string>, from: nat): (ts: seq<string>)
    decreases |ws|
  {
    if |ws| == 0 then [] else [ShowNat(from) + ":" + ws[0]] + Numbered(ws[1..], from + 1)
  }

  /** The k-th word becomes `<from + k>:<word>`, and every word is kept. */
  lemma {:induction false} NumberedAt(ws: seq<string>, from: nat)
    ensures |Numbered(ws, from)| == |ws|
    ensures forall k :: 0 <= k < |ws| ==> Numbered(ws, from)[k] == ShowNat(from + k) + ":" + ws[k]
    decreases |ws|
  {
    if |ws| > 0 {
      NumberedAt(ws[1..], from + 1);
    }
  }

  /** One output line: the label with its sign, then `k:word` for the k-th word from 1, then a newline. */
  function LibSvmLine(y: int, words: seq<string>): string
  {
    JoinWords([ShowSigned(y)] + Numbered(words, 1)) + "\n"
  }

  lemma ShowNatIsWord(n: nat)
    ensures IsWord(ShowNat(n))
  {
    var s := ShowNat(n);
    forall k | 0 <= k < |s|
      ensures !IsSpace(s[k])
    {
      assert IsDigit(s[k]);
    }
  }

  lemma ShowSignedIsWord(i: int)
    ensures IsWord(ShowSigned(i))
  {
    var s := ShowSigned(i);
    forall k | 0 <= k < |s|
      ensures !IsSpace(s[k])
    {
      if k > 0 {
        assert IsDigit(s[1..][k - 1]);
      }
    }
  }

  lemma TokenIsWord(n: nat, w: string)
    requires IsWord(w)
    ensures IsWord(ShowNat(n) + ":" + w)
  {
    ShowNatIsWord(n);
    var d := ShowNat(n);
    var t := d + ":" + w;
    forall k | 0 <= k < |t|
      ensures !IsSpace(t[k])
    {
      if k < |d| {
        assert t[k] == d[k];
      } else if k > |d| {
        assert t[k] == w[k - |d| - 1];
      }
    }
  }

  /**
   * The line written splits back, before its newline, into the signed label and the
   * numbered words of the data line, in order.
   */
  lemma LibSvmLineSplits(y: int, dataLine: string)
    ensures var out := LibSvmLine(y, Words(dataLine));
      && out[|out| - 1] == '\n'
      && Words(out[..|out| - 1]) == [ShowSigned(y)] + Numbered(Words(dataLine), 1)
  {
    var ws := Words(dataLine);
    var parts := [ShowSigned(y)] + Numbered(ws, 1);
    NumberedAt(ws, 1);
    ShowSignedIsWord(y);
    forall k | 0 <= k < |parts|
      ensures IsWord(parts[k])
    {
      if k > 0 {
        TokenIsWord(1 + (k - 1), ws[k - 1]);
      }
    }
    WordsOfJoin(parts);
    var out := LibSvmLine(y, ws);
    assert out[..|out| - 1] == JoinWords(parts);
  }

  // ---------------------------------------------------------------- merging two files

  /** Lines as `readline()` returns them: none is empty. */
  predicate IsFile(lines: seq<string>)
  {
    forall k :: 0 <= k < |lines| ==> |lines[k]| > 0
  }

  /** The i-th `readline()`: "" once the file is exhausted. */
  function ReadLine(lines: seq<string>, i: nat): (l: string)
    requires IsFile(lines)
    ensures l == "" <==> i >= |lines|
  {
    if i < |lines| then lines[i] else ""
  }

  function Longer(data: seq<string>, labels: seq<string>): nat
  {
    if |data| > |labels| then |data| else |labels|
  }

  /** The line written for line i of both files, when the label reads as a number. */
  function MergedLine(data: seq<string>, labels: seq<string>, float: string -> Option<real>, i: nat): Option<string>
    requires IsFile(data) && IsFile(labels)
  {
    match float(ReadLine(labels, i))
    case None => None
    case Some(v) => Some(LibSvmLine(Truncate(v), Words(ReadLine(data, i))))
  }

  /**
   * `merge_data_and_labels_into_libsvm_file` as written, from line i on: the loop
   * ends only when both files are exhausted, since `readline()` never returns the
   * `None` the length check compares with; a label that `float()` cannot read
   * raises `ValueError`.  The lines written, in order.
   */
  function MergeFrom(data: seq<string>, labels: seq<string>, float: string -> Option<real>, i: nat): (r: Result<seq<string>>)
    requires IsFile(data) && IsFile(labels)
    decreases Longer(data, labels) - i
  {
    if i >= Longer(data, labels) then Ok([])
    else match MergedLine(data, labels, float, i)
      case None => Err(PyException("ValueError"))
      case Some(line) =>
        match MergeFrom(data, labels, float, i + 1)
        case Err(e) => Err(e)
        case Ok(rest) => Ok([line] + rest)
  }

  function Merge(data: seq<string>, labels: seq<string>, float: string -> Option<real>): Result<seq<string>>
    requires IsFile(data) && IsFile(labels)
  {
    MergeFrom(data, labels, float, 0)
  }

  /** Every line from i up to the longer file's end has a label `float()` reads. */
  predicate LabelsReadFrom(data: seq<string>, labels: seq<string>, float: string -> Option<real>, i: nat)
    requires IsFile(data) && IsFile(labels)
  {
    forall t :: i <= t < Longer(data, labels) ==> MergedLine(data, labels, float, t).Some?
  }

  /**
   * What the merge writes: one line per line of the longer file, line t built from
   * line t of each file (an exhausted file reading as ""), or `ValueError` exactly
   * when some label does not read as a number.  The count returned is the number
   * of lines written.
   */
  lemma {:induction false} MergeFromWrites(data: seq<string>, labels: seq<string>, float: string -> Option<real>, i: nat)
    requires IsFile(data) && IsFile(labels) && i <= Longer(data, labels)
    ensures MergeFrom(data, labels, float, i).Ok? <==> LabelsReadFrom(data, labels, float, i)
    ensures MergeFrom(data, labels, float, i).Err? ==> MergeFrom(data, labels, float, i).error == PyException("ValueError")
    ensures MergeFrom(data, labels, float, i).Ok? ==>
      && |MergeFrom(data, labels, float, i).value| == Longer(data, labels) - i
      && forall t :: i <= t < Longer(data, labels) ==>
           MergeFrom(data, labels, float, i).value[t - i] == MergedLine(data, labels, float, t).value
    decreases Longer(data, labels) - i
  {
    if i < Longer(data, labels) {
      MergeFromWrites(data, labels, float, i + 1);
      if MergedLine(data, labels, float, i).Some? && LabelsReadFrom(data, labels, float, i + 1) {
        var rest := MergeFrom(data, labels, float, i + 1).value;
        var all := MergeFrom(data, labels, float, i).value;
        assert all == [MergedLine(data, labels, float, i).value] + rest;
        forall t | i <= t < Longer(data, labels)
          ensures all[t - i] == MergedLine(data, labels, float, t).value
        {
          if t > i {
            assert all[t - i] == rest[t - (i + 1)];
          }
        }
      }
    }
  }

  /**
   * The merge the length check was meant to give: a file exhausted before the
   * other raises `Exception` ("Label file and data file do not have the same
   * lenght").
   */
  function MergeCheckedFrom(data: seq<string>, labels: seq<string>, float: string -> Option<real>, i: nat): (r: Result<seq<string>>)
    requires IsFile(data) && IsFile(labels)
    decreases Longer(data, labels) - i
  {
    if i >= Longer(data, labels) then Ok([])
    else if i >= |data| || i >= |labels| then Err(PyException("Exception"))
    else match MergedLine(data, labels, float, i)
      case None => Err(PyException("ValueError"))
      case Some(line) =>
        match MergeCheckedFrom(data, labels, float, i + 1)
        case Err(e) => Err(e)
        case Ok(rest) => Ok([line] + rest)
  }

  function MergeChecked(data: seq<string>, labels: seq<string>, float: string -> Option<real>): Result<seq<string>>
    requires IsFile(data) && IsFile(labels)
  {
    MergeCheckedFrom(data, labels, float, 0)
  }

  /**
   * With the check in place, files of different lengths always fail, and on files
   * of the same length the checked merge writes exactly what the merge as written
   * does.
   */
  lemma {:induction false} MergeCheckedFromAgrees(data: seq<string>, labels: seq<string>, float: string -> Option<real>, i: nat)
    requires IsFile(data) && IsFile(labels) && i <= Longer(data, labels)
    ensures |data| != |labels| && i <= |data| && i <= |labels| ==> MergeCheckedFrom(data, labels, float, i).Err?
    ensures |data| == |labels| ==> MergeCheckedFrom(data, labels, float, i) == MergeFrom(data, labels, float, i)
    decreases Longer(data, labels) - i
  {
    if i < Longer(data, labels) {
      MergeCheckedFromAgrees(data, labels, float, i + 1);
    }
  }

  lemma MergeCheckedAgrees(data: seq<string>, labels: seq<string>, float: string -> Option<real>)
    requires IsFile(data) && IsFile(labels)
    ensures |data| != |labels| ==> MergeChecked(data, labels, float).Err?
    ensures |data| == |labels| ==> MergeChecked(data, labels, float) == Merge(data, labels, float)
  {
    MergeCheckedFromAgrees(data, labels, float, 0);
  }

  /** `float()` on the lines used below: "1\n" reads as 1; anything else, "" included, raises. */
  function ReadsOne(s: string): Option<real>
  {
    if s == "1\n" then Some(1.0) else None
  }

  /**
   * The length check never fires: a label file one line longer than an empty data
   * file yields the label-only line "+1\n" and a count of one, while the check as
   * meant raises `Exception`; a data file longer than the label file raises
   * `ValueError` from `float('')` instead.
   */
  lemma MismatchNotCaught()
    ensures Merge([], ["1\n"], ReadsOne) == Ok(["+1\n"])
    ensures MergeChecked([], ["1\n"], ReadsOne) == Err(PyException("Exception"))
    ensures Merge(["0.5\n"], [], ReadsOne) == Err(PyException("ValueError"))
  {
    assert ShowSigned(1) == "+1" by {
      assert ShowNat(1) == "1";
    }
    assert Truncate(1.0) == 1;
    assert Words("") == [] && Numbered([], 1) == [];
    assert JoinWords(["+1"]) == "+1";
    assert LibSvmLine(1, []) == "+1\n";
    assert MergedLine([], ["1\n"], ReadsOne, 0) == Some("+1\n");
    assert MergeFrom([], ["1\n"], ReadsOne, 1) == Ok([]);
    assert MergeFrom([], ["1\n"], ReadsOne, 0) == Ok(["+1\n"] + []);
    assert ["+1\n"] + [] == ["+1\n"];
  }

  // ---------------------------------------------------------------- the 200 jobs

  datatype Split = Train | Test

  /** A job: split i of the train or the test set. */
  datatype Job = Job(split: Split, i: nat)

  function DataPattern(j: Job): string
  {
    (if j.split.Train? then "*_train_data_" else "*_test_data_") + ShowNat(j.i) + ".asc"
  }

  function LabelsPattern(j: Job): string
  {
    (if j.split.Train? then "*_train_labels_" else "*_test_labels_") + ShowNat(j.i) + ".asc"
  }

  function OutputSuffix(j: Job): string
  {
    (if j.split.Train? then "_train_" else "_test_") + ShowNat(j.i) + ".libsvm.txt"
  }

  /** One split's jobs, 1..100 in order. */
  function SplitJobs(s: Split): (js: seq<Job>)
    ensures |js| == 100
  {
    seq(100, i requires 0 <= i < 100 => Job(s, i + 1))
  }

  /** The two loops of `main`: every train split, then every test split. */
  function Jobs(): (js: seq<Job>)
    ensures |js| == 200
  {
    SplitJobs(Train) + SplitJobs(Test)
  }

  /** The k-th job of `main`. */
  function JobAt(k: nat): Job
  {
    if k < 100 then Job(Train, k + 1) else Job(Test, k - 99)
  }

  /** What the listing, the files and `float()` say. */
  datatype Folder = Folder(glob: string -> seq<string>, contents: string -> seq<string>)

  /** An output file: its name and its lines. */
  datatype Written = Written(name: string, lines: seq<string>)

  /**
   * One job of `main`: find both files, check that their base names agree (an
   * `AssertionError` otherwise), and merge them into base + the output suffix.
   */
  function RunJob(j: Job, f: Folder, float: string -> Option<real>): (r: Result<Written>)
    requires forall name :: IsFile(f.contents(name))
    ensures r.Ok? ==> FindMatching(f.glob(DataPattern(j))).Ok? && FindMatching(f.glob(LabelsPattern(j))).Ok?
    ensures r.Ok? ==> var d := f.glob(DataPattern(j))[0];
      && BaseName(d, DataPattern(j)) == BaseName(f.glob(LabelsPattern(j))[0], LabelsPattern(j))
      && r.value.name == BaseName(d, DataPattern(j)) + OutputSuffix(j)
      && Merge(f.contents(d), f.contents(f.glob(LabelsPattern(j))[0]), float) == Ok(r.value.lines)
  {
    var d :- FindMatching(f.glob(DataPattern(j)));
    var l :- FindMatching(f.glob(LabelsPattern(j)));
    var base := BaseName(d, DataPattern(j));
    if base != BaseName(l, LabelsPattern(j)) then Err(PyException("AssertionError"))
    else
      var lines :- Merge(f.contents(d), f.contents(l), float);
      Ok(Written(base + OutputSuffix(j), lines))
  }

  /** `main`: the jobs in order, stopping at the first that raises. */
  function RunAll(js: seq<Job>, f: Folder, float: string -> Option<real>): (r: Result<seq<Written>>)
    requires forall name :: IsFile(f.contents(name))
    decreases |js|
  {
    if |js| == 0 then Ok([])
    else
      var w :- RunJob(js[0], f, float);
      var rest :- RunAll(js[1..], f, float);
      Ok([w] + rest)
  }

  /** Either every job runs, each giving its own output, or some job raises. */
  lemma {:induction false} RunAllRunsEach(js: seq<Job>, f: Folder, float: string -> Option<real>)
    requires forall name :: IsFile(f.contents(name))
    ensures RunAll(js, f, float).Ok? <==> forall k :: 0 <= k < |js| ==> RunJob(js[k], f, float).Ok?
    ensures RunAll(js, f, float).Ok? ==>
      |RunAll(js, f, float).value| == |js|
      && forall k :: 0 <= k < |js| ==> RunAll(js, f, float).value[k] == RunJob(js[k], f, float).value
    decreases |js|
  {
    if |js| > 0 {
      RunAllRunsEach(js[1..], f, float);
      assert forall k :: 1 <= k < |js| ==> js[1..][k - 1] == js[k];
    }
  }

  /**
   * When the data file found for the k-th job is `<base>` followed by the literal
   * part of its pattern, the k-th output is `<base>_train_<k+1>.libsvm.txt` for the
   * first 100 jobs and `<base>_test_<k-99>.libsvm.txt` for the last 100.
   */
  lemma OutputNames(f: Folder, float: string -> Option<real>, k: nat, base: string)
    requires forall name :: IsFile(f.contents(name))
    requires RunAll(Jobs(), f, float).Ok? && k < 200
    requires f.glob(DataPattern(JobAt(k))) == [base + DataPattern(JobAt(k))[1..]]
    ensures |RunAll(Jobs(), f, float).value| == 200
    ensures k < 100 ==> RunAll(Jobs(), f, float).value[k].name == base + ("_train_" + ShowNat(k + 1) + ".libsvm.txt")
    ensures k >= 100 ==> RunAll(Jobs(), f, float).value[k].name == base + ("_test_" + ShowNat(k - 99) + ".libsvm.txt")
  {
    RunAllRunsEach(Jobs(), f, float);
    var j := JobAt(k);
    assert Jobs()[k] == j by {
      if k >= 100 {
        assert Jobs()[k] == SplitJobs(Test)[k - 100];
      }
    }
    BaseNameStripsSuffix(base, DataPattern(j));
  }
}
