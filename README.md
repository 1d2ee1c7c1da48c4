# dicom2stl upload handler, modelled in Dafny

The repository's Cloud Function `on_dicom_upload` (`functions/main.py`) runs
whenever an object lands in the storage bucket. It turns a folder of DICOM
slices uploaded under `uploads/{id}/` into an STL surface mesh at
`results/{id}/model.stl`. The objects under `results/{id}/` also act as job
markers: `_PROCESSING` is a lease that stops a second run of the same job,
and `_ERROR` records a failure.

This project models the handler's own logic and proves properties of it:

- `paths.dfy` (module `Paths`): the trigger guards. These are the `uploads/`
  prefix, the `.stl` suffix, the `_PROCESSING` base name and the depth of at
  least three `/`-separated pieces. The module also derives the upload id and
  the job's four paths. `str.split("/")` and `os.path.basename` are written
  out as functions, with round-trip lemmas.
- `inputs.dfy` (module `Inputs`): the listing under the job's prefix, the
  filter that drops directory placeholders, and the loop that picks each
  blob's local download path.
- `slices.dfy` (module `Slices`): the in-place stable sort of the parsed
  slices by `SliceLocation`, and the stack of per-slice rescaled layers
  (`pixel * RescaleSlope + RescaleIntercept`) into one volume.
- `faces.dfy` (module `Faces`): the nested loop that fills the preallocated
  `nfaces × 3` triangle array with the vertices each face names.
- `markers.dfy` (module `Markers`): the bucket as a `MarkerStore` class
  holding the set of object names, and the handler as a method on it. The
  handler checks the lease and returns if it is set. Otherwise it sets the
  lease, writes `model.stl` on success or `_ERROR` on an exception, and
  deletes the lease in `finally`.

The run of the handler is split at the points where it calls code that is not
modelled. `listing` is what `list_blobs` returns for the job's prefix. An
`Outcome` (`Success` or `Failure(message)`) says how the rest of the try block
ended: downloading, `pydicom` parsing, the volume, `marching_cubes`, the STL
write and the upload. The empty-input branch is not part of `Outcome`: it
follows from `listing` through the same filter the source applies.

Some behaviours of `functions/main.py` that the model keeps as they are:

- The lease is checked and then created in two separate calls (lines 55-60),
  not by one atomic create-if-absent. No mutual exclusion between concurrent
  runs is claimed.
- `list.sort` is stable (line 84), so slices with equal `SliceLocation` keep
  their download order. `Slices.SortIsStable` proves that.
- An empty input set deletes the lease and returns without writing `_ERROR`
  (lines 68-71).
- The handler has no check for a mesh with zero faces. Whatever
  `marching_cubes` returns is written out. `marching_cubes` itself raises when
  the level 300 lies outside the volume's range, and that exception ends in
  `_ERROR` like any other.

## Model

| member | source | states |
|---|---|---|
| `Paths.Split` | functions/main.py:40 | `str.split("/")`: at least one piece, and no piece holds a `/` |
| `Paths.JoinSplit` | functions/main.py:40 | joining the pieces of a split with `/` gives the original path back |
| `Paths.SplitJoin` | functions/main.py:40 | splitting the `/`-join of slash-free pieces gives those pieces back (the other half of the round trip) |
| `Paths.Basename` | functions/main.py:35 | `os.path.basename`: slash-free, a suffix of the path, and either the whole path or preceded by a `/` |
| `Paths.BasenameIsLastPiece` | functions/main.py:35 | the base name is the last piece of the split |
| `Paths.Classify` | functions/main.py:29-44 | the upload is ignored iff it is not under `uploads/`, or ends in `.stl`, or has base name `_PROCESSING`, or has fewer than 3 pieces; the reason is given per guard in source order; a run's upload id is piece 1 |
| `Paths.RunJobUnderInputPrefix` | functions/main.py:44-47 | for a run, the upload id holds no slash, the job's paths are `uploads/{id}/`, `results/{id}/_PROCESSING`, `results/{id}/model.stl` and `results/{id}/_ERROR`, and the triggering object lies under the input prefix |
| `Paths.InputPrefixParse` | functions/main.py:45 | `uploads/{id}/` splits into `uploads`, the id and an empty piece |
| `Paths.LeasePathParse` | functions/main.py:46 | `results/{id}/_PROCESSING` splits into its three pieces and has base name `_PROCESSING` |
| `Paths.OutputPathParse` | functions/main.py:47 | `results/{id}/model.stl` splits into its three pieces |
| `Paths.ErrorPathParse` | functions/main.py:116 | `results/{id}/_ERROR` splits into its three pieces |
| `Paths.DerivedPathsDistinct` | functions/main.py:45-47 | the input prefix, lease, output and error paths are four different names |
| `Paths.MarkersNeverTrigger` | functions/main.py:30-32 | uploading the lease, the output or the error record is ignored as outside `uploads/`, so the handler never triggers itself |
| `Inputs.ListUnder` | functions/main.py:65 | every listed name starts with the requested prefix |
| `Inputs.SelectInputs` | functions/main.py:66 | no kept name ends in `/`, and no more names are kept than were listed |
| `Inputs.SelectInputsMembers` | functions/main.py:66 | a name is kept iff it is listed and does not end in `/` |
| `Inputs.SelectInputsCount` | functions/main.py:66 | each non-directory name is kept as many times as it is listed, and directory names never |
| `Inputs.SelectInputsAppend` | functions/main.py:66 | the filter keeps listing order: filtering a concatenation concatenates the filtered parts |
| `Inputs.JobInputsMembers` | functions/main.py:65-66 | the input set holds exactly the bucket names under the job's prefix that do not end in `/` |
| `Inputs.NoInputsIffOnlyDirectories` | functions/main.py:66-68 | the empty-input branch is taken iff every listed name ends in `/` |
| `Inputs.StageDownloads` | functions/main.py:74-78 | the loop yields one local path per input, in input order, each the input's base name inside the temporary directory |
| `Inputs.LocalPathBasename` | functions/main.py:76 | the local file keeps the blob's base name |
| `Inputs.NestedBlobsShareLocalPath` | functions/main.py:75-77 | for every download directory, any two sub-folder paths and any slash-free base name, the two blobs get the same local path |
| `Slices.SortByLocation` | functions/main.py:84 | the stable sort by `SliceLocation` that `list.sort` performs, as the insertion of each slice after the sorted ones before it; it keeps the length, and the lemmas below give its order, permutation and stability |
| `Slices.SortSlices` | functions/main.py:84 | sorting the slice array in place leaves it equal to the stable sort by location of its old contents |
| `Slices.InsertNext` | functions/main.py:84 | one insertion pass puts element `i` into the sorted prefix after every slice at its own location or lower, and leaves the rest alone |
| `Slices.ShiftPast` | functions/main.py:84 | the inner pass shifts right by one exactly the slices at the end of the prefix that lie strictly beyond the inserted one, and stops at the first that does not |
| `Slices.SortPermutes` | functions/main.py:84 | the sorted slices are a permutation of the parsed slices |
| `Slices.SortIsSorted` | functions/main.py:84 | the sorted slices are in non-decreasing `SliceLocation` order |
| `Slices.SortIsStable` | functions/main.py:84 | slices sharing a location keep their download order |
| `Slices.SortDeterminedByLocations` | functions/main.py:84 | when no two slices share a location, every arrival order sorts to the same sequence |
| `Slices.BuildVolumeContents` | functions/main.py:87-89 | the stack succeeds iff there are slices and all share one shape; it then has one layer per slice, in order, every layer has exactly the slices' rows and columns, and voxel (k,r,c) is `pixel_k[r][c] * slope_k + intercept_k` |
| `Slices.AssembleVolume` | functions/main.py:83-89 | sorts the slice array in place and returns the stack of the sorted slices |
| `Slices.VolumeIndependentOfArrivalOrder` | functions/main.py:83-89 | when no two slices share a location, the volume does not depend on the download order |
| `Faces.ExpandFaces` | functions/main.py:97-100 | when every face index names a vertex, the fresh array has `len(faces)` rows of 3, and entry (i,j) is `verts[faces[i][j]]` |
| `Markers.MarkerStore.Exists` | functions/main.py:55 | reports whether the name is in the bucket and changes nothing |
| `Markers.MarkerStore.Upload` | functions/main.py:60 | adds the name to the bucket |
| `Markers.MarkerStore.Delete` | functions/main.py:120 | removes the name from the bucket, and does nothing when it is already gone |
| `Markers.MarkerStore.RunJob` | functions/main.py:52-121 | makes exactly the marker calls of `RunOps`, leaves the store as they leave it, and reports in-progress, no input, completed or the error message |
| `Markers.MarkerStore.HandleUpload` | functions/main.py:29-121 | makes exactly the calls of `Protocol` for the uploaded path; reports the ignore reason for ignored paths; reports in-progress iff the lease existed on entry |
| `Markers.ApplyRunOps` | functions/main.py:54-121 | a run leaves the store unchanged if the lease was set; otherwise it leaves the store with the pipeline's one write or delete applied and the lease removed |
| `Markers.IgnoredUploadTouchesNoMarker` | functions/main.py:30-43 | an ignored upload makes no marker call and leaves the store unchanged |
| `Markers.LeaseHeldLeavesStoreUnchanged` | functions/main.py:54-57 | if the lease exists on entry, the run only checks it and leaves the store unchanged |
| `Markers.AcquiredLeaseIsReleased` | functions/main.py:59-121 | a run that creates the lease creates it right after the check, ends by deleting it, and leaves it absent |
| `Markers.OneResultMarkerPerRun` | functions/main.py:63-121 | a run never writes both `model.stl` and `_ERROR`: success adds only the output, an exception adds only the error record, no input adds neither |
| `Markers.RunTouchesOnlyItsMarkers` | functions/main.py:52-121 | every object other than the job's lease, output and error record keeps its presence |
| `Markers.NextRunAcquiresLease` | functions/main.py:54-60 | after a run that created the lease, the next run of the same job creates it again instead of exiting |

## Left out

- Firebase and Cloud Storage plumbing (`set_global_options`, `initialize_app`, `storage.Client`, downloads, file uploads, temporary directories) is left out. Its only effect in the model is on which names are in the bucket.
- Each object's contents are left out, and so is the text of the error record. A marker is only present or absent.
- `list_blobs` is a parameter (`listing`). A failure of the listing call itself writes `_ERROR`. The model covers it as a non-empty listing with `Failure`, which makes the same marker calls.
- `pydicom.dcmread` is a foreign parser. A parsed slice is the record `(location, pixels, slope, intercept)`. A parse failure is one way to get `Failure`.
- `skimage.measure.marching_cubes` is a foreign floating-point algorithm. Its `(verts, faces)` output is an input of `Faces.ExpandFaces`, and the threshold 300 never enters the model.
- `stl_mesh.save` is a foreign serialiser. Facet normals and the float32 byte layout are not part of this code.
- Floating point: pixels are `int`, and locations, slopes, intercepts and vertices are `real`. Float rounding and float32 truncation are not modelled.
- `Faces.ExpandFaces`: face indices are `nat`, so Python's negative indexing from the end of `verts` is not modelled. `marching_cubes` does not produce negative indices.
- Concurrency: the lease is check-then-create, so only one sequential run at a time is modelled. Mutual exclusion between concurrent runs is neither claimed nor true of the source.
- `Markers.MarkerStore.Delete`: assumes that deleting an absent object does nothing. On the empty-input path the lease is deleted twice (lines 70 and 120). The real storage client raises `NotFound` on the second delete, after the lease is already gone, and the model does not capture that exception.
- A crash of the process between creating and deleting the lease leaves the lease in place. The model does not cover such runs.
- Marker calls are assumed to succeed: every `exists()`, upload and `delete()` on a marker returns normally in the model. The model therefore does not capture these runs:
  - `exists()` (line 55) or the lease upload (line 60) raises: the run stops before `try`, with no marker written.
  - The `_ERROR` upload (line 117) raises: `finally` still deletes the lease, and the run ends with neither result marker and an exception. `Markers.OneResultMarkerPerRun` does not cover this case.
  - `flag_blob.delete()` (line 120) raises: the lease stays. `Markers.AcquiredLeaseIsReleased` does not cover this case.
  - Something raises after the STL upload (line 108), such as cleaning up the temporary directory when the `with` at line 73 exits: the exception is caught at line 111 and writes `_ERROR` next to `model.stl`. `Outcome` cannot express a run that both uploads the result and fails.
- A slice lacking `SliceLocation`, `RescaleSlope` or `RescaleIntercept` raises `AttributeError` at line 84 or 88. The `Slice` record always carries these fields, so the model has no such slice. The run as a whole is still covered by `Failure`.
- `print` logging and the traceback text are left out.
