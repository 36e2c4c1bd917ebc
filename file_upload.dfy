/** The list editing and file classification of components/fileUpload.tsx.
    Each handler is the updater passed to `setFiles`: a new list computed from
    the previous one. */
module FileUpload {
  import opened Wrappers

  /** A browser `File`: its name and MIME type. */
  datatype BrowserFile = BrowserFile(name: string, mimeType: string)

  /** The object URL `URL.createObjectURL(file)` mints; opaque here. */
  datatype Preview = ObjectUrl(of: BrowserFile)

  /** One entry of the component's `files` state. `propertyIndex` is the text
      of a number input, so it is a string. */
  datatype FileEntry = FileEntry(file: BrowserFile, preview: Preview, description: string, propertyIndex: string)

  function NewEntry(f: BrowserFile): FileEntry {
    FileEntry(f, ObjectUrl(f), "", "")
  }

  /** `handleFileChange`: one new entry per selected file (none when the input
      holds no list), after all existing entries. */
  function HandleFileChange(prevFiles: seq<FileEntry>, selected: Option<seq<BrowserFile>>): (r: seq<FileEntry>)
    ensures var sel := selected.GetOr([]);
            && |r| == |prevFiles| + |sel|
            && r[..|prevFiles|] == prevFiles
            && forall j :: 0 <= j < |sel| ==>
                 r[|prevFiles| + j].file == sel[j] && r[|prevFiles| + j].description == ""
                 && r[|prevFiles| + j].propertyIndex == ""
  {
    var sel := selected.GetOr([]);
    prevFiles + seq(|sel|, j requires 0 <= j < |sel| => NewEntry(sel[j]))
  }

  /** `filter((_, i) => i !== index)`: keeps every element whose position is
      not `index`. */
  function Without<T>(s: seq<T>, index: int): seq<T> {
    if s == [] then []
    else (if index == 0 then [] else [s[0]]) + Without(s[1..], index - 1)
  }

  /** Removing position `index` from the list leaves the others in order; an
      index outside the list changes nothing. */
  lemma {:induction false} WithoutSpec<T>(s: seq<T>, index: int)
    ensures 0 <= index < |s| ==> Without(s, index) == s[..index] + s[index + 1..]
    ensures !(0 <= index < |s|) ==> Without(s, index) == s
  {
    if s != [] {
      WithoutSpec(s[1..], index - 1);
      if 0 < index < |s| {
        assert s[..index] == [s[0]] + s[1..][..index - 1];
        assert s[index + 1..] == s[1..][index..];
      }
      assert s == [s[0]] + s[1..];
    }
  }

  /** `handleRemoveFile`. */
  function HandleRemoveFile(prevFiles: seq<FileEntry>, index: int): (r: seq<FileEntry>)
    ensures 0 <= index < |prevFiles| ==> |r| == |prevFiles| - 1
    ensures !(0 <= index < |prevFiles|) ==> r == prevFiles
    ensures forall j :: 0 <= j < |r| ==> r[j] == prevFiles[if 0 <= index <= j then j + 1 else j]
  {
    WithoutSpec(prevFiles, index);
    Without(prevFiles, index)
  }

  /** `map((x, i) => i === index ? update(x) : x)`. */
  function UpdateAt<T>(s: seq<T>, index: int, update: T -> T): seq<T> {
    seq(|s|, i requires 0 <= i < |s| => if i == index then update(s[i]) else s[i])
  }

  /** `handleDescriptionChange`: only entry `index`'s description changes. */
  function HandleDescriptionChange(prevFiles: seq<FileEntry>, index: int, value: string): (r: seq<FileEntry>)
    ensures |r| == |prevFiles|
    ensures forall j :: 0 <= j < |r| && j != index ==> r[j] == prevFiles[j]
    ensures 0 <= index < |r| ==>
              r[index].description == value && r[index].file == prevFiles[index].file
              && r[index].preview == prevFiles[index].preview
              && r[index].propertyIndex == prevFiles[index].propertyIndex
  {
    UpdateAt(prevFiles, index, (e: FileEntry) => e.(description := value))
  }

  /** `handlePropertyIndexChange`: only entry `index`'s property index changes. */
  function HandlePropertyIndexChange(prevFiles: seq<FileEntry>, index: int, value: string): (r: seq<FileEntry>)
    ensures |r| == |prevFiles|
    ensures forall j :: 0 <= j < |r| && j != index ==> r[j] == prevFiles[j]
    ensures 0 <= index < |r| ==>
              r[index].propertyIndex == value && r[index].file == prevFiles[index].file
              && r[index].preview == prevFiles[index].preview
              && r[index].description == prevFiles[index].description
  {
    UpdateAt(prevFiles, index, (e: FileEntry) => e.(propertyIndex := value))
  }

  /** Editing one field twice keeps only the second value, and editing the
      two fields commutes. */
  lemma EditsCompose(files: seq<FileEntry>, index: int, a: string, b: string, p: string)
    ensures HandleDescriptionChange(HandleDescriptionChange(files, index, a), index, b)
            == HandleDescriptionChange(files, index, b)
    ensures HandlePropertyIndexChange(HandleDescriptionChange(files, index, a), index, p)
            == HandleDescriptionChange(HandlePropertyIndexChange(files, index, p), index, a)
  {
  }

  // ---------------------------------------------------------------------------
  // Classification by MIME type
  // ---------------------------------------------------------------------------

  /** `s.startsWith(prefix)`. */
  predicate StartsWith(s: string, prefix: string) {
    |prefix| <= |s| && s[..|prefix|] == prefix
  }

  datatype Icon = ImageIcon | VideoIcon | GenericFileIcon

  /** `getFileIcon`. */
  function FileIcon(mimeType: string): Icon {
    if StartsWith(mimeType, "image/") then ImageIcon
    else if StartsWith(mimeType, "video/") then VideoIcon
    else GenericFileIcon
  }

  /** The icon is chosen by prefix: `image/` gives the image icon, otherwise
      `video/` the video icon, otherwise the generic one. */
  lemma FileIconByPrefix(mimeType: string)
    ensures FileIcon(mimeType) == ImageIcon <==> StartsWith(mimeType, "image/")
    ensures FileIcon(mimeType) == VideoIcon <==> StartsWith(mimeType, "video/")
    ensures FileIcon(mimeType) == GenericFileIcon <==>
              !StartsWith(mimeType, "image/") && !StartsWith(mimeType, "video/")
  {
    if StartsWith(mimeType, "video/") {
      assert mimeType[0] == 'v';
    }
  }

  datatype PreviewKind = ImagePreview | VideoPreview | PdfPreview

  /** The previews rendered for an entry, in page order: three independent
      conditions. */
  function PreviewKinds(mimeType: string): seq<PreviewKind> {
    (if StartsWith(mimeType, "image/") then [ImagePreview] else [])
    + (if StartsWith(mimeType, "video/") then [VideoPreview] else [])
    + (if mimeType == "application/pdf" then [PdfPreview] else [])
  }

  /** At most one preview is rendered; the PDF one only for the exact type
      `application/pdf`, the image and video ones exactly when the icon is the
      image or video icon. */
  lemma PreviewMatchesIcon(mimeType: string)
    ensures |PreviewKinds(mimeType)| <= 1
    ensures PdfPreview in PreviewKinds(mimeType) <==> mimeType == "application/pdf"
    ensures ImagePreview in PreviewKinds(mimeType) <==> FileIcon(mimeType) == ImageIcon
    ensures VideoPreview in PreviewKinds(mimeType) <==> FileIcon(mimeType) == VideoIcon
    ensures PreviewKinds(mimeType) == [] <==>
              FileIcon(mimeType) == GenericFileIcon && mimeType != "application/pdf"
  {
    var pdf := "application/pdf";
    if StartsWith(mimeType, "image/") {
      assert mimeType[0] == 'i';
      assert mimeType != pdf by { assert pdf[0] == 'a'; }
    }
    if StartsWith(mimeType, "video/") {
      assert mimeType[0] == 'v';
      assert mimeType != pdf by { assert pdf[0] == 'a'; }
    }
  }
}
