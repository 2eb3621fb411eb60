/**
 * The data-management script (tools/process_data.py): fetch the data sets of its
 * registry that are missing, concatenate the ones published as separate train and
 * test files, and split every data set 60/20/20 into train, validation and test
 * files.
 *
 * `np.random.permutation` is a parameter, given as a permutation of the line
 * numbers; `int(.6 * m)` and `int(.8 * m)` are read exactly, as the floors of 3m/5
 * and 4m/5.  A directory is the set of names in it.  The messages printed are not
 * modelled.
 */
module DataSets {
  import opened Results
  import Seqs

  // ---------------------------------------------------------------- permutations

  /** 0, 1, ..., m - 1. */
  function Range(m: nat): (r: seq<nat>)
    ensures |r| == m
    ensures forall i :: 0 <= i < m ==> r[i] == i
  {
    seq(m, i requires 0 <= i < m => i)
  }

  /** perm orders the line numbers 0..m-1, each once. */
  predicate IsPermutation(perm: seq<nat>, m: nat)
  {
    multiset(perm) == multiset(Range(m))
  }

  lemma {:induction false} RangeCounts(m: nat, x: nat)
    ensures multiset(Range(m))[x] == if x < m then 1 else 0
  {
    if m > 0 {
      RangeCounts(m - 1, x);
      assert Range(m) == Range(m - 1) + [m - 1];
    }
  }

  // ---------------------------------------------------------------- the 60/20/20 split

  /** `int(.6 * m)` and `int(.8 * m)`. */
  function Cut60(m: nat): nat { (3 * m) / 5 }
  function Cut80(m: nat): nat { (4 * m) / 5 }

  datatype Parts = Parts(train: seq<nat>, valid: seq<nat>, test: seq<nat>)

  /** `perm[0:int(.6m)]`, `perm[int(.6m):int(.8m)]` and `perm[int(.8m):]`. */
  function Partition(perm: seq<nat>): (p: Parts)
    ensures p.train + p.valid + p.test == perm
    ensures p.train == perm[..Cut60(|perm|)] && p.valid == perm[Cut60(|perm|)..Cut80(|perm|)]
    ensures p.test == perm[Cut80(|perm|)..]
  {
    var m := |perm|;
    assert perm[..Cut60(m)] + perm[Cut60(m)..Cut80(m)] + perm[Cut80(m)..] == perm;
    Parts(perm[..Cut60(m)], perm[Cut60(m)..Cut80(m)], perm[Cut80(m)..])
  }

  /** The line numbers in a part. */
  function Members(s: seq<nat>): set<nat>
  {
    set i | i in s
  }

  /**
   * For a permutation of the m line numbers, the three parts never share a line
   * and between them hold every line: pairwise disjoint, with union 0..m-1.
   */
  lemma PartitionIsPartition(perm: seq<nat>, m: nat)
    requires IsPermutation(perm, m)
    ensures var p := Partition(perm);
      && Members(p.train) !! Members(p.valid)
      && Members(p.train) !! Members(p.test)
      && Members(p.valid) !! Members(p.test)
      && Members(p.train) + Members(p.valid) + Members(p.test) == Members(Range(m))
  {
    var p := Partition(perm);
    assert multiset(perm) == multiset(p.train) + multiset(p.valid) + multiset(p.test);
    forall x: nat | x in p.train + p.valid + p.test
      ensures x < m
      ensures x in p.train ==> x !in p.valid && x !in p.test
      ensures x in p.valid ==> x !in p.test
    {
      RangeCounts(m, x);
      assert x in multiset(perm);
    }
    forall x: nat | x < m
      ensures x in p.train + p.valid + p.test && x in Range(m)
    {
      RangeCounts(m, x);
      assert x in multiset(perm);
      assert Range(m)[x] == x;
    }
  }

  // ---------------------------------------------------------------- the three files

  /** The lines at the given numbers, in the order given. */
  function Pick(a: seq<string>, idx: seq<nat>): (r: seq<string>)
    requires forall k :: 0 <= k < |idx| ==> idx[k] < |a|
    ensures |r| == |idx| && forall k :: 0 <= k < |idx| ==> r[k] == a[idx[k]]
  {
    seq(|idx|, k requires 0 <= k < |idx| => a[idx[k]])
  }

  lemma PickConcat(a: seq<string>, x: seq<nat>, y: seq<nat>)
    requires forall k :: 0 <= k < |x| ==> x[k] < |a|
    requires forall k :: 0 <= k < |y| ==> y[k] < |a|
    ensures Pick(a, x + y) == Pick(a, x) + Pick(a, y)
  {
  }

  /** Indices valid for one order of the numbers are valid for any other. */
  lemma IndicesCarryOver(a: seq<string>, xs: seq<nat>, ys: seq<nat>)
    requires multiset(xs) == multiset(ys)
    requires forall k :: 0 <= k < |xs| ==> xs[k] < |a|
    ensures forall k :: 0 <= k < |ys| ==> ys[k] < |a|
  {
    forall k | 0 <= k < |ys|
      ensures ys[k] < |a|
    {
      assert ys[k] in multiset(xs);
    }
  }

  /** Leaving out the line picked at position j. */
  lemma PickRemoved(a: seq<string>, ys: seq<nat>, j: nat)
    requires j < |ys| && forall k :: 0 <= k < |ys| ==> ys[k] < |a|
    ensures multiset(Pick(a, ys)) == multiset(Pick(a, ys[..j] + ys[j + 1..])) + multiset{a[ys[j]]}
  {
    assert ys == ys[..j] + ([ys[j]] + ys[j + 1..]);
    PickConcat(a, ys[..j], [ys[j]] + ys[j + 1..]);
    PickConcat(a, [ys[j]], ys[j + 1..]);
    PickConcat(a, ys[..j], ys[j + 1..]);
  }

  /** Picking by a rearrangement of the same numbers picks a rearrangement of the same lines. */
  lemma {:induction false} PickPermuted(a: seq<string>, xs: seq<nat>, ys: seq<nat>)
    requires multiset(xs) == multiset(ys)
    requires forall k :: 0 <= k < |xs| ==> xs[k] < |a|
    ensures forall k :: 0 <= k < |ys| ==> ys[k] < |a|
    ensures multiset(Pick(a, xs)) == multiset(Pick(a, ys))
    decreases |xs|
  {
    IndicesCarryOver(a, xs, ys);
    if |xs| == 0 {
      assert |multiset(ys)| == 0;
    } else {
      var n := |xs| - 1;
      assert xs[n] in multiset(ys);
      var j :| 0 <= j < |ys| && ys[j] == xs[n];
      Seqs.RemoveOne(xs, ys, j);
      PickPermuted(a, xs[..n], ys[..j] + ys[j + 1..]);
      PickRemoved(a, xs, n);
      assert xs[..n] + xs[n + 1..] == xs[..n];
      PickRemoved(a, ys, j);
    }
  }

  /**
   * The three files hold between them every input line, each as often as in the
   * input: train, validation and test together rearrange the file.
   */
  lemma SplitKeepsLines(a: seq<string>, perm: seq<nat>)
    requires IsPermutation(perm, |a|)
    ensures forall k :: 0 <= k < |perm| ==> perm[k] < |a|
    ensures var p := Partition(perm);
      multiset(Pick(a, p.train) + Pick(a, p.valid) + Pick(a, p.test)) == multiset(a)
  {
    var p := Partition(perm);
    forall k | 0 <= k < |Range(|a|)|
      ensures Range(|a|)[k] < |a|
    {
    }
    PickPermuted(a, Range(|a|), perm);
    PickConcat(a, p.train, p.valid);
    PickConcat(a, p.train + p.valid, p.test);
    assert Pick(a, Range(|a|)) == a;
  }

  /** A file written: its name and its lines. */
  datatype Output = Output(name: string, lines: seq<string>)

  /** The lines written under `name`, if it was written. */
  function WrittenAs(outs: seq<Output>, name: string): Option<seq<string>>
    decreases |outs|
  {
    if |outs| == 0 then None
    else if outs[0].name == name then Some(outs[0].lines)
    else WrittenAs(outs[1..], name)
  }

  /** Write `name` with these lines unless a file by that name exists. */
  function WriteUnlessExists(existing: set<string>, name: string, lines: seq<string>): seq<Output>
  {
    if name in existing then [] else [Output(name, lines)]
  }

  /**
   * `data_split`: a missing input raises `IOError`; otherwise the file's lines are
   * parted by the permutation, and `<ofile>.train`, `.test` and `.valid` are each
   * written, with the lines at their part's numbers in permutation order, unless a
   * file by that name already exists.
   */
  function DataSplit(input: Option<seq<string>>, perm: seq<nat>, ofile: string, existing: set<string>)
    : (r: Result<seq<Output>>)
    requires input.Some? ==> IsPermutation(perm, |input.value|)
  {
    if input.None? then Err(PyException("IOError"))
    else
      var a := input.value;
      SplitKeepsLines(a, perm);
      var p := Partition(perm);
      Ok(WriteUnlessExists(existing, ofile + ".train", Pick(a, p.train))
         + WriteUnlessExists(existing, ofile + ".test", Pick(a, p.test))
         + WriteUnlessExists(existing, ofile + ".valid", Pick(a, p.valid)))
  }

  lemma {:induction false} WrittenAsConcat(x: seq<Output>, y: seq<Output>, name: string)
    ensures WrittenAs(x + y, name) == if WrittenAs(x, name).Some? then WrittenAs(x, name) else WrittenAs(y, name)
    decreases |x|
  {
    if |x| > 0 {
      assert (x + y)[1..] == x[1..] + y;
      WrittenAsConcat(x[1..], y, name);
    } else {
      assert x + y == y;
    }
  }

  lemma WrittenAsOne(existing: set<string>, name: string, lines: seq<string>, other: string)
    ensures WrittenAs(WriteUnlessExists(existing, name, lines), other)
      == if other == name && name !in existing then Some(lines) else None
  {
    if name !in existing {
      assert WriteUnlessExists(existing, name, lines)[1..] == [];
    }
  }

  /**
   * An existing target is left alone and each missing one is still written: the
   * train file holds the lines of the first 60% of the permutation, the validation
   * file the next 20%, the test file the rest; nothing else is written.
   */
  lemma DataSplitWrites(a: seq<string>, perm: seq<nat>, ofile: string, existing: set<string>, name: string)
    requires IsPermutation(perm, |a|)
    ensures forall k :: 0 <= k < |perm| ==> perm[k] < |a|
    ensures var outs := DataSplit(Some(a), perm, ofile, existing).value;
      var p := Partition(perm);
      && (name in existing ==> WrittenAs(outs, name).None?)
      && (name == ofile + ".train" && name !in existing ==> WrittenAs(outs, name) == Some(Pick(a, p.train)))
      && (name == ofile + ".valid" && name !in existing ==> WrittenAs(outs, name) == Some(Pick(a, p.valid)))
      && (name == ofile + ".test" && name !in existing ==> WrittenAs(outs, name) == Some(Pick(a, p.test)))
      && (name !in {ofile + ".train", ofile + ".valid", ofile + ".test"} ==> WrittenAs(outs, name).None?)
  {
    SplitKeepsLines(a, perm);
    var p := Partition(perm);
    var t := WriteUnlessExists(existing, ofile + ".train", Pick(a, p.train));
    var e := WriteUnlessExists(existing, ofile + ".test", Pick(a, p.test));
    var v := WriteUnlessExists(existing, ofile + ".valid", Pick(a, p.valid));
    WrittenAsOne(existing, ofile + ".train", Pick(a, p.train), name);
    WrittenAsOne(existing, ofile + ".test", Pick(a, p.test), name);
    WrittenAsOne(existing, ofile + ".valid", Pick(a, p.valid), name);
    WrittenAsConcat(t, e, name);
    WrittenAsConcat(t + e, v, name);
    Suffixes(ofile);
  }

  /** The three target names differ. */
  lemma Suffixes(ofile: string)
    ensures ofile + ".train" != ofile + ".test" && ofile + ".test" != ofile + ".valid"
    ensures ofile + ".train" != ofile + ".valid"
  {
    assert |ofile + ".train"| != |ofile + ".test"|;
    assert |ofile + ".test"| != |ofile + ".valid"|;
    assert (ofile + ".train")[|ofile|] == '.' && (ofile + ".train")[|ofile| + 1] == 't';
    assert (ofile + ".valid")[|ofile| + 1] == 'v';
  }

  // ---------------------------------------------------------------- fetching

  /** `s.split(sep)[-1]`: what follows the last separator, or all of s when there is none. */
  function LastPart(s: string, sep: char): (r: string)
    ensures |r| <= |s|
    decreases |s|
  {
    if |s| == 0 || s[|s| - 1] == sep then "" else LastPart(s[..|s| - 1], sep) + [s[|s| - 1]]
  }

  /** The last part is a suffix free of the separator, preceded by the separator or by nothing. */
  lemma {:induction false} LastPartSplits(s: string, sep: char)
    ensures var r := LastPart(s, sep);
      && s == s[..|s| - |r|] + r
      && sep !in r
      && (|r| == |s| || s[|s| - |r| - 1] == sep)
    decreases |s|
  {
    if |s| > 0 && s[|s| - 1] != sep {
      LastPartSplits(s[..|s| - 1], sep);
    }
  }

  /** The working directory and `../data`, each as the names in it. */
  datatype Disk = Disk(here: set<string>, data: set<string>)

  /**
   * Fetching a missing data set k from its URL: the download is saved under the
   * URL's last `/` part; when the URL's last `.` part is "bz2", `bunzip2 k.bz2`
   * runs (and does nothing when there is no such file, its status being ignored);
   * then `shutil.move(k, ../data/k)` raises `IOError` when there is no file k.
   */
  function Fetch(k: string, url: string, disk: Disk): (r: Result<Disk>)
    ensures r.Ok? ==> k in r.value.data && k !in r.value.here
  {
    var here := disk.here + {LastPart(url, '/')};
    var here' := if LastPart(url, '.') == "bz2" && k + ".bz2" in here then here - {k + ".bz2"} + {k} else here;
    if k !in here' then Err(PyException("IOError"))
    else Ok(Disk(here' - {k}, disk.data + {k}))
  }

  /**
   * From a working directory holding neither k nor k.bz2, the fetch succeeds
   * exactly when the download is named k, or is named k.bz2 with a "bz2" URL: the
   * move goes by the registry key, not by the downloaded name.
   */
  lemma FetchNeedsMatchingKey(k: string, url: string, disk: Disk)
    requires k !in disk.here && k + ".bz2" !in disk.here
    ensures Fetch(k, url, disk).Ok? <==>
      LastPart(url, '/') == k || (LastPart(url, '.') == "bz2" && LastPart(url, '/') == k + ".bz2")
  {
  }

  const A9a: string := "a9a"
  const A9aT: string := "a9a.t"
  const RealSim: string := "real-sim"
  const News20: string := "news20.binary"
  const German: string := "german.numer_scale"
  const Diabetes: string := "diabetes_scale"
  const Site: string := "http://www.csie.ntu.edu.tw/~cjlin/libsvmtools/datasets/binary/"

  /** The data sets' keys and URLs. */
  function Registry(): map<string, string>
  {
    map[A9a := Site + A9a, A9aT := Site + A9aT, RealSim := Site + RealSim + ".bz2",
        News20 := Site + News20 + ".bz2", German := Site + German, Diabetes := Site + Diabetes]
  }

  lemma {:induction false} LastPartAfter(prefix: string, name: string, sep: char)
    requires |prefix| > 0 && prefix[|prefix| - 1] == sep && sep !in name
    ensures LastPart(prefix + name, sep) == name
    decreases |name|
  {
    if |name| == 0 {
      assert prefix + name == prefix;
    } else {
      var n := |name| - 1;
      assert (prefix + name)[..|prefix + name| - 1] == prefix + name[..n];
      LastPartAfter(prefix, name[..n], sep);
    }
  }

  /** A plain download saved under its key lands in `../data`. */
  lemma FetchPlain(k: string, disk: Disk)
    requires '/' !in k && k !in disk.here
    ensures Fetch(k, Site + k, disk).Ok?
  {
    assert Site[|Site| - 1] == '/';
    LastPartAfter(Site, k, '/');
  }

  /** A compressed download saved as k.bz2 is unpacked into k, which lands in `../data`. */
  lemma FetchCompressed(k: string, disk: Disk)
    requires '/' !in k && k !in disk.here && k + ".bz2" !in disk.here
    ensures Fetch(k, Site + k + ".bz2", disk).Ok?
  {
    assert Site[|Site| - 1] == '/';
    var url := Site + k + ".bz2";
    assert url == Site + (k + ".bz2");
    assert '/' !in k + ".bz2";
    LastPartAfter(Site, k + ".bz2", '/');
    assert url == (Site + k + ".") + "bz2";
    LastPartAfter(Site + k + ".", "bz2", '.');
  }

  /** Every data set of the registry, fetched into a fresh working directory, lands in `../data`. */
  lemma RegistryFetches(k: string, disk: Disk)
    requires k in Registry() && k !in disk.here && k + ".bz2" !in disk.here
    ensures Fetch(k, Registry()[k], disk).Ok?
  {
    if k == RealSim {
      FetchCompressed(RealSim, disk);
    } else if k == News20 {
      FetchCompressed(News20, disk);
    } else if k == A9a {
      FetchPlain(A9a, disk);
    } else if k == A9aT {
      FetchPlain(A9aT, disk);
    } else if k == German {
      FetchPlain(German, disk);
    } else {
      FetchPlain(Diabetes, disk);
    }
  }

  // ---------------------------------------------------------------- concatenating and the split list

  const A9aAll: string := "a9a_all"
  const AstroAll: string := "astro-ph_all"

  /**
   * `cat` into a9a_all when it is missing (the shell creates it whatever the inputs),
   * and into astro-ph_all when it is missing and both astro-ph files are present.
   */
  function Concatenate(data: set<string>): (d: set<string>)
    ensures data <= d && A9aAll in d
    ensures AstroAll in d <==> AstroAll in data || ("astroph.train" in data && "astroph.test" in data)
    ensures d - data <= {A9aAll, AstroAll}
  {
    var d := data + {A9aAll};
    if "astroph.train" in data && "astroph.test" in data then d + {AstroAll} else d
  }

  /** The files split, each with the root of its three output names. */
  function SplitList(data: set<string>): (l: map<string, string>)
  {
    var fixed := map[A9aAll := "a9a", RealSim := RealSim, News20 := "news20",
                     German := "german", Diabetes := "diabetes"];
    if AstroAll in data then fixed[AstroAll := "astro-ph"] else fixed
  }

  /** astro-ph is split exactly when its concatenated file exists; the five others always are. */
  lemma SplitListMembers(data: set<string>)
    ensures var l := SplitList(Concatenate(data));
      && (AstroAll in l <==> AstroAll in data || ("astroph.train" in data && "astroph.test" in data))
      && {A9aAll, RealSim, News20, German, Diabetes} <= l.Keys
      && l.Keys <= {A9aAll, RealSim, News20, German, Diabetes, AstroAll}
  {
  }
}
