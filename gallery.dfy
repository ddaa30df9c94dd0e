/**
 * The per-slot image gallery of `handle_image_input`: the upload loop that
 * appends a batch of files, at most `Capacity` of them and never two with the
 * same name, as a function of the gallery before the batch and the batch.
 */
module ImageGallery {

  /** How many images one slot's gallery may hold (the `< 10` test of the upload loop). */
  const Capacity: nat := 10

  /** An uploaded file: its name, and contents that are carried but never inspected. */
  datatype UploadedFile = UploadedFile(name: string, bytes: seq<bv8>)

  /** The outcome of an upload batch: the new gallery and how many "gallery full" captions were shown. */
  datatype BatchResult = BatchResult(gallery: seq<UploadedFile>, fullWarnings: nat)

  /** The name list the loop rebuilds before each duplicate test. */
  function Names(g: seq<UploadedFile>): (ns: seq<string>)
    ensures |ns| == |g|
    ensures forall i :: 0 <= i < |g| ==> ns[i] == g[i].name
  {
    seq(|g|, i requires 0 <= i < |g| => g[i].name)
  }

  ghost predicate DistinctNames(g: seq<UploadedFile>)
  {
    forall i, j :: 0 <= i < j < |g| ==> g[i].name != g[j].name
  }

  /** What every gallery in the session satisfies. */
  ghost predicate WellFormed(g: seq<UploadedFile>)
  {
    |g| <= Capacity && DistinctNames(g)
  }

  /** One turn of the upload loop: the capacity test first, then the duplicate-name test. */
  function AddOne(r: BatchResult, f: UploadedFile): (a: BatchResult)
    ensures a.gallery == r.gallery || a.gallery == r.gallery + [f]
    ensures a.gallery == r.gallery + [f] <==> |r.gallery| < Capacity && f.name !in Names(r.gallery)
    ensures a.fullWarnings == r.fullWarnings + (if |r.gallery| < Capacity then 0 else 1)
    ensures WellFormed(r.gallery) ==> WellFormed(a.gallery)
  {
    if |r.gallery| < Capacity then
      if f.name in Names(r.gallery) then r
      else
        InNames(r.gallery, f.name);
        BatchResult(r.gallery + [f], r.fullWarnings)
    else
      BatchResult(r.gallery, r.fullWarnings + 1)
  }

  /** The whole upload loop over `files`, in upload order, starting from gallery `g`. */
  function AddBatch(g: seq<UploadedFile>, files: seq<UploadedFile>): (a: BatchResult)
    ensures g <= a.gallery
    ensures |a.gallery| <= |g| + |files|
    ensures |g| <= Capacity ==> |a.gallery| <= Capacity
    ensures a.fullWarnings <= |files|
    decreases |files|
  {
    if files == [] then BatchResult(g, 0)
    else AddOne(AddBatch(g, files[..|files| - 1]), files[|files| - 1])
  }

  // ---------------------------------------------------------------------------
  // An independent description of the batch, which does not mention capacity.

  /**
   * The files of `files` whose name is neither in `g` nor carried by an earlier
   * file of the batch, in upload order.
   */
  function NewlyNamed(g: seq<UploadedFile>, files: seq<UploadedFile>): seq<UploadedFile>
    decreases |files|
  {
    if files == [] then []
    else
      var init, f := files[..|files| - 1], files[|files| - 1];
      NewlyNamed(g, init) + (if f.name in Names(g + init) then [] else [f])
  }

  /** The number of files of the batch that arrive once `room` newly named files have arrived. */
  function Overflow(g: seq<UploadedFile>, files: seq<UploadedFile>, room: nat): nat
    decreases |files|
  {
    if files == [] then 0
    else
      var init := files[..|files| - 1];
      Overflow(g, init, room) + (if |NewlyNamed(g, init)| >= room then 1 else 0)
  }

  /** The first `n` elements of `s`, or all of `s` when it is shorter. */
  function Take(s: seq<UploadedFile>, n: nat): (t: seq<UploadedFile>)
    ensures |t| <= n && t <= s
    ensures |s| <= n ==> t == s
  {
    if |s| <= n then s else s[..n]
  }

  // ---------------------------------------------------------------------------
  // Facts about names.

  lemma InNames(g: seq<UploadedFile>, n: string)
    ensures n in Names(g) <==> exists i :: 0 <= i < |g| && g[i].name == n
  {
    if n in Names(g) {
      var i :| 0 <= i < |g| && Names(g)[i] == n;
    } else {
      forall i | 0 <= i < |g| ensures g[i].name != n {
        assert Names(g)[i] == g[i].name;
      }
    }
  }

  lemma NamesAppend(a: seq<UploadedFile>, b: seq<UploadedFile>, n: string)
    ensures n in Names(a + b) <==> n in Names(a) || n in Names(b)
  {
    InNames(a + b, n);
    InNames(a, n);
    InNames(b, n);
    if n in Names(b) {
      var i :| 0 <= i < |b| && b[i].name == n;
      assert (a + b)[|a| + i] == b[i];
    }
    if n in Names(a) {
      var i :| 0 <= i < |a| && a[i].name == n;
      assert (a + b)[i] == a[i];
    }
    if n in Names(a + b) {
      var i :| 0 <= i < |a + b| && (a + b)[i].name == n;
      if i < |a| { assert (a + b)[i] == a[i]; } else { assert (a + b)[i] == b[i - |a|]; }
    }
  }

  /** Every newly named file comes from the batch and has a name new to `g`. */
  lemma {:induction false} NewlyNamedFromBatch(g: seq<UploadedFile>, files: seq<UploadedFile>)
    ensures forall x :: x in NewlyNamed(g, files) ==> x in files && x.name !in Names(g)
  {
    if files != [] {
      var init, f := files[..|files| - 1], files[|files| - 1];
      NewlyNamedFromBatch(g, init);
      assert files == init + [f];
      if f.name !in Names(g + init) {
        NamesAppend(g, init, f.name);
      }
    }
  }

  /** The gallery plus the newly named files carries exactly the names of the gallery plus the batch. */
  lemma {:induction false} NewlyNamedCoversBatch(g: seq<UploadedFile>, files: seq<UploadedFile>, n: string)
    ensures n in Names(g + files) <==> n in Names(g + NewlyNamed(g, files))
  {
    if files == [] {
      assert g + files == g;
    } else {
      var init, f := files[..|files| - 1], files[|files| - 1];
      NewlyNamedCoversBatch(g, init, n);
      NewlyNamedCoversBatch(g, init, f.name);
      assert g + files == (g + init) + [f];
      NamesAppend(g + init, [f], n);
      var newNamed := NewlyNamed(g, init);
      var extra := if f.name in Names(g + init) then [] else [f];
      assert g + NewlyNamed(g, files) == (g + newNamed) + extra;
      NamesAppend(g + newNamed, extra, n);
      InNames([f], n);
      InNames(extra, n);
    }
  }

  /** Newly named files never repeat a name, among themselves or with `g`. */
  lemma {:induction false} NewlyNamedDistinct(g: seq<UploadedFile>, files: seq<UploadedFile>)
    requires DistinctNames(g)
    ensures DistinctNames(g + NewlyNamed(g, files))
  {
    if files != [] {
      var init, f := files[..|files| - 1], files[|files| - 1];
      NewlyNamedDistinct(g, init);
      var newNamed := NewlyNamed(g, init);
      if f.name !in Names(g + init) {
        NewlyNamedCoversBatch(g, init, f.name);
        InNames(g + newNamed, f.name);
        var s := g + newNamed + [f];
        assert g + NewlyNamed(g, files) == s;
        forall i, j | 0 <= i < j < |s| ensures s[i].name != s[j].name {
          if j == |s| - 1 {
            assert s[i] == (g + newNamed)[i];
          } else {
            assert s[i] == (g + newNamed)[i] && s[j] == (g + newNamed)[j];
          }
        }
      } else {
        assert g + NewlyNamed(g, files) == g + newNamed;
      }
    }
  }

  lemma {:induction false} OverflowNoRoom(g: seq<UploadedFile>, files: seq<UploadedFile>)
    ensures Overflow(g, files, 0) == |files|
  {
    if files != [] {
      OverflowNoRoom(g, files[..|files| - 1]);
    }
  }

  // ---------------------------------------------------------------------------
  // What the upload loop promises.

  /**
   * The batch appends, after the untouched old entries, the first newly named
   * files of the batch in upload order, as many as there is room for; one
   * "gallery full" caption is shown for every file that arrives after the
   * room is used up.
   */
  lemma {:induction false} AddBatchAppendsNewlyNamed(g: seq<UploadedFile>, files: seq<UploadedFile>)
    requires |g| <= Capacity
    ensures AddBatch(g, files).gallery == g + Take(NewlyNamed(g, files), Capacity - |g|)
    ensures AddBatch(g, files).fullWarnings == Overflow(g, files, Capacity - |g|)
  {
    if files != [] {
      var init, f := files[..|files| - 1], files[|files| - 1];
      var room := Capacity - |g|;
      AddBatchAppendsNewlyNamed(g, init);
      var r := AddBatch(g, init);
      var newNamed := NewlyNamed(g, init);
      if |r.gallery| < Capacity {
        assert Take(newNamed, room) == newNamed;
        NewlyNamedCoversBatch(g, init, f.name);
        if f.name !in Names(g + init) {
          assert NewlyNamed(g, files) == newNamed + [f];
          assert r.gallery + [f] == g + (newNamed + [f]);
        }
      } else {
        assert |newNamed| >= room;
        assert NewlyNamed(g, files)[..|newNamed|] == newNamed;
        assert Take(NewlyNamed(g, files), room) == Take(newNamed, room);
      }
    }
  }

  /** A "gallery full" caption is shown only when the batch leaves the gallery full. */
  lemma {:induction false} WarningsOnlyWhenFull(g: seq<UploadedFile>, files: seq<UploadedFile>)
    requires |g| <= Capacity
    ensures AddBatch(g, files).fullWarnings > 0 ==> |AddBatch(g, files).gallery| == Capacity
  {
    if files != [] {
      var init := files[..|files| - 1];
      WarningsOnlyWhenFull(g, init);
    }
  }

  /** No two entries share a name, whatever the batch, duplicates within it included. */
  lemma {:induction false} AddBatchKeepsNamesDistinct(g: seq<UploadedFile>, files: seq<UploadedFile>)
    requires WellFormed(g)
    ensures WellFormed(AddBatch(g, files).gallery)
  {
    AddBatchAppendsNewlyNamed(g, files);
    NewlyNamedDistinct(g, files);
    var all := g + NewlyNamed(g, files);
    var r := AddBatch(g, files).gallery;
    assert r <= all;
    forall i, j | 0 <= i < j < |r| ensures r[i].name != r[j].name {
      assert r[i] == all[i] && r[j] == all[j];
    }
  }

  /** Adding only appends: the old entries keep their positions, and every added file is from the batch with a new name. */
  lemma {:induction false} AddBatchAppendOnly(g: seq<UploadedFile>, files: seq<UploadedFile>)
    requires |g| <= Capacity
    ensures var r := AddBatch(g, files).gallery;
      |g| <= |r| && r[..|g|] == g &&
      forall k :: |g| <= k < |r| ==> r[k] in files && r[k].name !in Names(g)
  {
    AddBatchAppendsNewlyNamed(g, files);
    NewlyNamedFromBatch(g, files);
    var r := AddBatch(g, files).gallery;
    var added := Take(NewlyNamed(g, files), Capacity - |g|);
    forall k | |g| <= k < |r| ensures r[k] in files && r[k].name !in Names(g) {
      assert r[k] == added[k - |g|] == NewlyNamed(g, files)[k - |g|];
    }
  }

  /** A full gallery is left as it is, and every file of the batch, duplicates included, gets a "full" caption. */
  lemma {:induction false} FullGalleryRejectsBatch(g: seq<UploadedFile>, files: seq<UploadedFile>)
    requires |g| == Capacity
    ensures AddBatch(g, files) == BatchResult(g, |files|)
  {
    AddBatchAppendsNewlyNamed(g, files);
    OverflowNoRoom(g, files);
  }

  /**
   * The uploader hands the same batch back on every re-run of the page; feeding
   * it a second time adds nothing.
   */
  lemma AddBatchReplayIdempotent(g: seq<UploadedFile>, files: seq<UploadedFile>)
    requires |g| <= Capacity
    ensures var once := AddBatch(g, files).gallery;
      AddBatch(once, files).gallery == once
  {
    AddBatchAppendsNewlyNamed(g, files);
    var once := AddBatch(g, files).gallery;
    var newNamed := NewlyNamed(g, files);
    AddBatchAppendsNewlyNamed(once, files);
    if |newNamed| <= Capacity - |g| {
      assert once == g + newNamed;
      forall x | x in files ensures x.name in Names(once) {
        var i :| 0 <= i < |files| && files[i] == x;
        InNames(g + files, x.name);
        assert (g + files)[|g| + i] == x;
        NewlyNamedCoversBatch(g, files, x.name);
      }
      NoneNewlyNamed(once, files);
    } else {
      assert |once| == Capacity;
    }
  }

  /**
   * Clearing does not stop the uploader from holding its batch: on the next
   * run the batch is fed to the empty gallery again, and a non-empty batch
   * brings its first file back, ahead of the rest.
   */
  lemma ClearThenReplayRefills(files: seq<UploadedFile>)
    requires files != []
    ensures var refilled := AddBatch([], files).gallery;
      refilled == Take(NewlyNamed([], files), Capacity) &&
      |refilled| > 0 && refilled[0] == files[0] && WellFormed(refilled)
  {
    AddBatchAppendsNewlyNamed([], files);
    AddBatchKeepsNamesDistinct([], files);
    NewlyNamedStartsWithFirst([], files);
    assert [] + Take(NewlyNamed([], files), Capacity) == Take(NewlyNamed([], files), Capacity);
  }

  /** The first file of a batch is newly named when the gallery does not hold its name. */
  lemma {:induction false} NewlyNamedStartsWithFirst(g: seq<UploadedFile>, files: seq<UploadedFile>)
    requires files != [] && files[0].name !in Names(g)
    ensures |NewlyNamed(g, files)| > 0 && NewlyNamed(g, files)[0] == files[0]
  {
    var init, f := files[..|files| - 1], files[|files| - 1];
    if init == [] {
      assert g + init == g;
    } else {
      assert init[0] == files[0];
      NewlyNamedStartsWithFirst(g, init);
    }
  }

  lemma {:induction false} NoneNewlyNamed(g: seq<UploadedFile>, files: seq<UploadedFile>)
    requires forall x :: x in files ==> x.name in Names(g)
    ensures NewlyNamed(g, files) == []
  {
    if files != [] {
      var init, f := files[..|files| - 1], files[|files| - 1];
      NoneNewlyNamed(g, init);
      NamesAppend(g, init, f.name);
    }
  }
}
