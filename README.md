# Image input with a per-slot gallery

A Dafny model of `handle_image_input` from a Streamlit front end for a video
generation service. Each image slot (first frame, last frame, …) is identified
by a `key_prefix`. The slot keeps a gallery of up to 10 uploaded images in the
session state under `"gallery_" + key_prefix`. An upload batch is appended file
by file, skipping names already present. A "clear" button empties the gallery.
The uploader still holds its batch after a clear, and the page re-runs, so the
re-run feeds that batch to the now empty gallery and refills it.
A radio list labelled `"1. name"`, `"2. name"`, … picks the image. The input
then returns the chosen gallery image, or else a typed URL, or else nothing.

Modules:

- `ImageGallery` (`gallery.dfy`): uploaded files, the upload loop as the
  function `AddBatch`, and what it promises. The promises are a capacity bound,
  distinct names, append-only growth, one "full" caption per file met when the
  gallery is full, and idempotence when the same batch is replayed. They are
  proved against `NewlyNamed`, a second description of the batch that never
  mentions capacity.
- `Selection` (`selection.dfy`): decimal numerals, the radio labels, Python's
  `list.index` as `IndexOf`, and the precedence of a gallery choice over a URL.
- `ImageInput` (`session.dfy`): the session state as the class `Session`, a map
  from key to gallery. Its methods create a gallery on first use, run the
  upload loop in place, clear a gallery, and run the whole input once.
  `Session.Valid()` says every gallery holds at most 10 entries with distinct
  names, and every method keeps it.

Widgets are inputs of `HandleImageInput`. `files` is what the uploader holds
(an absent upload is the empty batch). `chosen` is the radio's label. `clearClicked`
is the clear button and `url` is the text field (`""` when empty). The returned
pair `(file, "file")`, `(url, "url")` or `(None, None)` is the datatype
`ImageChoice` (`FromGallery`, `FromUrl`, `NoImage`).

The capacity is fixed at 10 and there is no way to remove a single image. The
selection is whatever the radio holds. The radio is given no starting
position, so it starts on the first label, and while the gallery is non-empty
some entry is always selected. The
capacity test comes before the duplicate test, so a full gallery shows a
caption for every remaining file of the batch, duplicates included.

## Model

| member | source | states |
|---|---|---|
| ImageGallery.Names | app.py:28 | the name list has one name per entry, the name of the entry at the same position |
| ImageGallery.AddOne | app.py:26-32 | one turn of the loop appends the file exactly when the gallery has fewer than 10 entries and the name is not among them, otherwise leaves the gallery as it is; it adds a "full" caption exactly when the gallery has 10 or more entries; a gallery of at most 10 entries with distinct names stays so |
| ImageGallery.AddBatch | app.py:23-32 | the loop over the batch keeps the old gallery as a prefix, adds at most one entry per file, never takes a gallery of at most 10 entries past 10, and shows at most one caption per file |
| ImageGallery.AddBatchAppendsNewlyNamed | app.py:23-32 | the batch leaves the old entries and appends the first newly named files of the batch, in upload order, as many as fit in 10; one "full" caption per file arriving once that room is used up |
| ImageGallery.AddBatchKeepsNamesDistinct | app.py:28-30 | no two entries share a name after any batch, including duplicates inside one batch |
| ImageGallery.AddBatchAppendOnly | app.py:24-30 | old entries keep their positions; every added entry is a file of the batch whose name was not in the gallery |
| ImageGallery.FullGalleryRejectsBatch | app.py:26-32 | a full gallery is left unchanged and every file of the batch, duplicates included, gets a "full" caption |
| ImageGallery.WarningsOnlyWhenFull | app.py:26-32 | a "full" caption is shown only if the batch leaves the gallery full |
| ImageGallery.AddBatchReplayIdempotent | app.py:23-30 | feeding the same batch again, as the uploader does on every page re-run, adds nothing |
| ImageGallery.ClearThenReplayRefills | app.py:23-30 | after a clear, replaying a non-empty batch rebuilds the gallery from the batch alone: its first newly named files, at most 10, starting with the batch's first file, names distinct |
| ImageGallery.NewlyNamedCoversBatch | app.py:28-29 | the gallery plus the newly named files carries exactly the names of the gallery plus the whole batch |
| Selection.Decimal | app.py:41 | the numeral Python writes for `i+1` is a non-empty string of digits, with at least two digits from 10 on |
| Selection.DecimalInjective | app.py:41 | two positions with the same numeral are the same position |
| Selection.Label | app.py:41 | the text before a label's first '.' is its position plus one, written in decimal, and the file name follows the ". " after it |
| Selection.Labels | app.py:41 | one label per gallery entry, in gallery order, the label of entry i being `Label(i, entry i)` |
| Selection.LabelInjective | app.py:41 | labels of different positions differ, whatever the file names |
| Selection.IndexOf | app.py:57 | `list.index`: the first position holding the label, and `None` exactly when the label is absent (where Python raises) |
| Selection.SelectByLabel | app.py:41-58 | looking up the label of entry i in the label list gives position i |
| Selection.ChooseImage | app.py:56-77 | a gallery file is returned exactly when the gallery is non-empty and a label is chosen, and it is an entry of the gallery; otherwise the URL is returned exactly when it is non-empty; otherwise nothing |
| Selection.ChosenLabelPicksEntry | app.py:56-62 | choosing the label of entry i returns entry i, whatever the URL field holds |
| ImageInput.GalleryKey | app.py:6 | the key is `gallery_` followed by the slot's prefix, so the prefix is recoverable from the key |
| ImageInput.GalleryKeysDistinct | app.py:6-8 | different slots use different session keys, so their galleries are independent |
| ImageInput.Session.GalleryOf | app.py:6-8 | the slot's gallery when its key is present, the empty gallery it would be given otherwise; it has at most 10 entries with distinct names while the session is valid |
| ImageInput.Session.EnsureGallery | app.py:6-8 | the slot's gallery is created empty only when its key is absent; otherwise the session state is unchanged |
| ImageInput.Session.AddUploads | app.py:23-32 | the in-place loop leaves the slot's gallery and caption count equal to `AddBatch` of the old gallery and the batch, other slots untouched, and keeps every gallery within 10 entries with distinct names |
| ImageInput.Session.ClearGallery | app.py:51-52 | the slot's gallery becomes empty and no other slot changes |
| ImageInput.Session.HandleImageInput | app.py:2-77 | one run: create, upload, then either clear and re-run (non-empty gallery and button pressed) or return `ChooseImage` of the updated gallery; every gallery stays within 10 entries with distinct names |
| ImageInput.ClearThenReplay | app.py:23-62 | a clear run returns `Rerun`; the re-run with the same batch leaves the slot's gallery equal to the batch fed to an empty gallery, non-empty and starting with the batch's first file, and returns the entry whose label the radio holds, the batch's first file when the radio is on its first label |

## Left out

- Rendering: markdown, tabs, uploader, radio, button, image previews, info and divider texts are UI. Their outputs are the inputs of `HandleImageInput`, and a caption is only counted.
- `st.rerun()`: modelled as the outcome `Rerun`, because the run stops there and returns nothing.
- The uploader's file-type filter (jpg, png, jpeg) is applied by the widget before the code sees the batch.
- File contents: carried as opaque bytes and never compared; files are told apart by name only.
- `chosen`: an `Option`, so `HandleImageInput` and `ChooseImage` also accept no label over a non-empty gallery. The radio never gives that, since it always starts on its first label. Their contracts cover this wider set of inputs; in that case the URL or nothing is returned, as the `if selected_option:` test would do.
- Widget state under the other session keys (`uploader_`, `radio_`, `clear_`, `url_`) belongs to the widgets and is not part of the model.
- ImageInput.Session.HandleImageInput: requires the chosen label to be one of the radio's options, which the radio widget guarantees. The `ValueError` path of `list.index` is modelled by `IndexOf` returning `None` but is not reachable from the input.
- Job submission, status polling, the prompt ledger, image upload to a file host and history merging are not part of this model.
