/**
 * The session state behind `handle_image_input`: one gallery per slot, kept
 * under the key `"gallery_" + key_prefix`, created on first use, grown in place
 * by the upload loop and emptied by the clear button.
 */
module ImageInput {
  import opened ImageGallery
  import opened Selection

  /** The session-state key of a slot's gallery. */
  function GalleryKey(keyPrefix: string): (k: string)
    ensures |k| == 8 + |keyPrefix|
    ensures k[..8] == "gallery_"
    ensures k[8..] == keyPrefix
  {
    "gallery_" + keyPrefix
  }

  /** Different slots keep their galleries under different keys. */
  lemma GalleryKeysDistinct(p: string, q: string)
    requires p != q
    ensures GalleryKey(p) != GalleryKey(q)
  {
    assert GalleryKey(p)[8..] == p;
  }

  /** What one call of the input hands back to the page. */
  datatype Outcome =
    | Returned(choice: ImageChoice)
    | Rerun  // the clear button restarted the page before anything was returned

  /** The gallery entries of the session state, by key. */
  class Session {
    var galleries: map<string, seq<UploadedFile>>

    ghost predicate Valid()
      reads this
    {
      forall k :: k in galleries ==> WellFormed(galleries[k])
    }

    /** The gallery a slot has, or the empty one it would be given. */
    function GalleryOf(keyPrefix: string): (g: seq<UploadedFile>)
      reads this
      ensures GalleryKey(keyPrefix) in galleries ==> g == galleries[GalleryKey(keyPrefix)]
      ensures GalleryKey(keyPrefix) !in galleries ==> g == []
      ensures Valid() ==> WellFormed(g)
    {
      var key := GalleryKey(keyPrefix);
      if key in galleries then galleries[key] else []
    }

    constructor ()
      ensures Valid() && galleries == map[]
    {
      galleries := map[];
    }

    /** Creates the slot's gallery, empty, only when its key is absent. */
    method EnsureGallery(keyPrefix: string)
      requires Valid()
      modifies this
      ensures Valid()
      ensures var key := GalleryKey(keyPrefix);
        galleries == if key in old(galleries) then old(galleries) else old(galleries)[key := []]
    {
      var key := GalleryKey(keyPrefix);
      if key !in galleries {
        galleries := galleries[key := []];
      }
    }

    /**
     * The upload loop: each file of the batch in turn is appended to the slot's
     * gallery when it has room and the name is not there yet; a "gallery full"
     * caption is counted for each file met while the gallery is full.
     */
    method AddUploads(keyPrefix: string, files: seq<UploadedFile>) returns (fullWarnings: nat)
      requires Valid() && GalleryKey(keyPrefix) in galleries
      modifies this
      ensures Valid()
      ensures var key := GalleryKey(keyPrefix);
        var r := AddBatch(old(galleries)[key], files);
        galleries == old(galleries)[key := r.gallery] && fullWarnings == r.fullWarnings
    {
      var key := GalleryKey(keyPrefix);
      ghost var start := galleries[key];
      fullWarnings := 0;
      for i := 0 to |files|
        invariant key in galleries
        invariant galleries == old(galleries)[key := AddBatch(start, files[..i]).gallery]
        invariant fullWarnings == AddBatch(start, files[..i]).fullWarnings
      {
        var newFile := files[i];
        assert files[..i + 1][..i] == files[..i];
        if |galleries[key]| < Capacity {
          var currentNames := Names(galleries[key]);
          if newFile.name !in currentNames {
            galleries := galleries[key := galleries[key] + [newFile]];
          }
        } else {
          fullWarnings := fullWarnings + 1;
        }
      }
      assert files[..|files|] == files;
      AddBatchKeepsNamesDistinct(start, files);
    }

    /** The clear button: the slot's gallery becomes empty. */
    method ClearGallery(keyPrefix: string)
      requires Valid()
      modifies this
      ensures Valid()
      ensures galleries == old(galleries)[GalleryKey(keyPrefix) := []]
    {
      galleries := galleries[GalleryKey(keyPrefix) := []];
    }

    /**
     * One run of the input for the slot `keyPrefix`. The widgets are inputs:
     * `files` is what the uploader holds, `chosen` the radio's label, `clearClicked`
     * the clear button and `url` the text field. The clear button and the radio
     * exist only while the gallery is non-empty.
     */
    method HandleImageInput(keyPrefix: string, files: seq<UploadedFile>, chosen: Option<string>,
                            clearClicked: bool, url: string)
      returns (outcome: Outcome, fullWarnings: nat)
      requires Valid()
      requires var shown := AddBatch(GalleryOf(keyPrefix), files).gallery;
        |shown| > 0 && chosen.Some? ==> chosen.value in Labels(shown)
      modifies this
      ensures Valid()
      ensures var key := GalleryKey(keyPrefix);
        var r := AddBatch(old(GalleryOf(keyPrefix)), files);
        fullWarnings == r.fullWarnings &&
        if |r.gallery| > 0 && clearClicked then
          galleries == old(galleries)[key := []] && outcome == Rerun
        else
          galleries == old(galleries)[key := r.gallery] &&
          outcome == Returned(ChooseImage(r.gallery, chosen, url))
    {
      EnsureGallery(keyPrefix);
      fullWarnings := AddUploads(keyPrefix, files);
      var gallery := galleries[GalleryKey(keyPrefix)];
      if |gallery| > 0 && clearClicked {
        ClearGallery(keyPrefix);
        outcome := Rerun;
      } else {
        outcome := Returned(ChooseImage(gallery, chosen, url));
      }
    }
  }

  /**
   * Clearing a slot while the uploader still holds its batch: the clear run
   * empties the gallery and re-runs the page, and the re-run feeds the same
   * batch to the empty gallery, so its first file is back at position 0.
   * On the re-run the radio holds the label at position `pick` of the refilled
   * gallery (position 0 unless the user picks another), and that entry is returned.
   */
  method ClearThenReplay(s: Session, keyPrefix: string, files: seq<UploadedFile>, pick: nat, url: string)
    returns (cleared: Outcome, replayed: Outcome)
    requires s.Valid() && files != []
    requires pick < |AddBatch([], files).gallery|
    modifies s
    ensures s.Valid()
    ensures cleared == Rerun
    ensures var g := s.GalleryOf(keyPrefix);
      g == AddBatch([], files).gallery && |g| > 0 && g[0] == files[0] &&
      replayed == Returned(FromGallery(g[pick]))
    ensures pick == 0 ==> replayed == Returned(FromGallery(files[0]))
  {
    ClearThenReplayRefills(files);
    AddBatchKeepsNamesDistinct(s.GalleryOf(keyPrefix), files);
    var first := AddBatch(s.GalleryOf(keyPrefix), files).gallery;
    assert |first| > 0 by {
      if |s.GalleryOf(keyPrefix)| == 0 {
        assert first == AddBatch([], files).gallery;
      }
    }
    var w;
    cleared, w := s.HandleImageInput(keyPrefix, files, None, true, url);
    assert s.GalleryOf(keyPrefix) == [];
    var refilled := AddBatch([], files).gallery;
    ChosenLabelPicksEntry(refilled, pick, url);
    replayed, w := s.HandleImageInput(keyPrefix, files, Some(Labels(refilled)[pick]), false, url);
  }
}
