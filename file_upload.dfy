/**
 * The attachment-list maintenance of src/components/FileUpload.tsx: a new
 * selection is filtered through the allow-list and appended after the files
 * already attached, and one attachment is removed by its index. The new list
 * is what the component hands to its `onFilesChange` callback.
 */
module FileUpload {
  import opened FileConfig

  /** What `handleFileSelect` produces: the list for `onFilesChange`, and whether the "some files filtered" alert fires. */
  datatype Selection = Selection(files: seq<UploadedFile>, someFiltered: bool)

  /** `selected.filter(isFileSupported)`. */
  function SupportedOnly(selected: seq<UploadedFile>): (r: seq<UploadedFile>)
    ensures |r| <= |selected|
    ensures forall i :: 0 <= i < |r| ==> IsFileSupported(r[i])
    ensures forall f :: f in r ==> f in selected
  {
    if selected == [] then []
    else (if IsFileSupported(selected[0]) then [selected[0]] else []) + SupportedOnly(selected[1..])
  }

  /** Filtering keeps selection order: it distributes over concatenation. */
  lemma {:induction false} SupportedOnlyAppend(a: seq<UploadedFile>, b: seq<UploadedFile>)
    ensures SupportedOnly(a + b) == SupportedOnly(a) + SupportedOnly(b)
  {
    if a != [] {
      assert (a + b)[1..] == a[1..] + b;
      SupportedOnlyAppend(a[1..], b);
    } else {
      assert a + b == b;
    }
  }

  /** Every supported selected file survives the filter. */
  lemma {:induction false} SupportedSurvive(selected: seq<UploadedFile>, f: UploadedFile)
    requires f in selected && IsFileSupported(f)
    ensures f in SupportedOnly(selected)
  {
    if selected[0] != f {
      SupportedSurvive(selected[1..], f);
    }
  }

  /** The filter drops nothing exactly when every selected file is supported. */
  lemma {:induction false} SupportedOnlyKeepsLength(selected: seq<UploadedFile>)
    ensures |SupportedOnly(selected)| == |selected| <==>
            forall i :: 0 <= i < |selected| ==> IsFileSupported(selected[i])
  {
    if selected != [] {
      SupportedOnlyKeepsLength(selected[1..]);
      if IsFileSupported(selected[0]) {
        forall i | 0 < i < |selected| && !IsFileSupported(selected[i])
          ensures !IsFileSupported(selected[1..][i - 1]) { }
      }
    }
  }

  /** `handleFileSelect`: the old list, then the supported selected files in selection order. */
  function HandleFileSelect(files: seq<UploadedFile>, selected: seq<UploadedFile>): (r: Selection)
    ensures |files| <= |r.files| <= |files| + |selected|
    ensures r.files[..|files|] == files
    ensures r.files[|files|..] == SupportedOnly(selected)
    ensures forall i :: |files| <= i < |r.files| ==> IsFileSupported(r.files[i])
    ensures forall f :: f in selected && !IsFileSupported(f) && f !in files ==> f !in r.files
    ensures r.someFiltered <==> exists i :: 0 <= i < |selected| && !IsFileSupported(selected[i])
  {
    var valid := SupportedOnly(selected);
    SupportedOnlyKeepsLength(selected);
    var r := Selection(files + valid, |valid| != |selected|);
    assert r.files[..|files|] == files;
    assert r.files[|files|..] == valid;
    r
  }

  /** `files.filter((_, i) => i !== index)` on the part of the list that starts at position `offset`. */
  function KeepOtherIndices(s: seq<UploadedFile>, index: int, offset: int): (r: seq<UploadedFile>)
    ensures offset <= index < offset + |s| ==> r == s[..index - offset] + s[index - offset + 1..]
    ensures !(offset <= index < offset + |s|) ==> r == s
  {
    if s == [] then []
    else
      var rest := KeepOtherIndices(s[1..], index, offset + 1);
      if offset == index then
        assert rest == s[1..];
        rest
      else
        [s[0]] + rest
  }

  /** `removeFile`: drops the element at `index`; an index outside the list changes nothing. */
  function RemoveFile(files: seq<UploadedFile>, index: int): (r: seq<UploadedFile>)
    ensures 0 <= index < |files| ==> |r| == |files| - 1
    ensures 0 <= index < |files| ==> forall j :: 0 <= j < index ==> r[j] == files[j]
    ensures 0 <= index < |files| ==> forall j :: index <= j < |r| ==> r[j] == files[j + 1]
    ensures !(0 <= index < |files|) ==> r == files
  {
    KeepOtherIndices(files, index, 0)
  }

  /** Removing right after selecting removes from the combined list: the old files are never re-validated. */
  lemma RemoveAfterSelect(files: seq<UploadedFile>, selected: seq<UploadedFile>, index: int)
    requires 0 <= index < |files|
    ensures RemoveFile(HandleFileSelect(files, selected).files, index)
            == RemoveFile(files, index) + SupportedOnly(selected)
  {
    var valid := SupportedOnly(selected);
    var all := HandleFileSelect(files, selected).files;
    assert all == files + valid by {
      assert all == all[..|files|] + all[|files|..];
    }
    var left := RemoveFile(all, index);
    var right := RemoveFile(files, index) + valid;
    assert |left| == |right|;
    forall j | 0 <= j < |left| ensures left[j] == right[j] {
      if j < index {
        assert left[j] == all[j];
      } else if j < |files| - 1 {
        assert left[j] == all[j + 1];
      } else {
        assert left[j] == all[j + 1] == valid[j + 1 - |files|];
      }
    }
  }
}
