/** rename.py: the earlier renaming helpers, whose new names carry no
    progressive id. */
module Rename {
  import opened Outcomes
  import opened Paths
  import opened ExifData
  import opened Actions
  import Renaming

  /** `name_from_exif(fname, base_name)`, where `image` is the outcome of
      reading the image's EXIF: base name, `_`, date-time stamp, `_`, camera
      model and the original suffix. */
  function NameFromExif(fname: string, baseName: string, image: Result<Exif>): (r: Result<string>)
    ensures r.Ok? <==> image.Ok? && image.value.dateTime.Some?
    ensures image.Raise? ==> r == Raise(image.error)
    ensures image.Ok? && image.value.dateTime.None? ==> r == Raise(RuntimeError)
  {
    var exif :- image;
    if exif.dateTime.None? then Raise(RuntimeError)
    else
      var camera := CameraModel(exif.model);
      Ok(baseName + "_" + Stamp(exif.dateTime.value) + "_" + camera + Suffix(fname))
  }

  /** The name is the one the later `name_from_exif` of renaming.py builds
      without a progressive id. */
  lemma NameWithoutId(fname: string, baseName: string, image: Result<Exif>)
    ensures var r := NameFromExif(fname, baseName, image);
      var later := Renaming.NameFromExif(fname, baseName, None, image);
      && (r.Ok? <==> later.Ok?)
      && (r.Ok? ==> r.value == later.value.0)
  {
    if image.Ok? && image.value.dateTime.Some? {
      var e := image.value;
      assert Renaming.IdString(None) == "";
      assert baseName + "" == baseName;
      assert Renaming.NewName(fname, baseName, None, e.dateTime.value, e.model)
          == baseName + "_" + Stamp(e.dateTime.value) + "_" + CameraModel(e.model) + Suffix(fname);
    }
  }

  /** The focal length and the GPS position are read but never reach the name. */
  lemma NameIgnoresFocal(fname: string, baseName: string, e: Exif, focal: Option<real>, gps: Option<(real, real, real)>)
    ensures NameFromExif(fname, baseName, Ok(e)) == NameFromExif(fname, baseName, Ok(e.(focal := focal, gps := gps)))
  {
  }

  /** `rename_image`: create the destination folder, name the copy from EXIF,
      copy, and delete the original when asked; True on success. */
  function RenameImage(fname: string, destFolder: string, baseName: string, deleteOriginal: bool, image: Result<Exif>)
    : (out: (seq<Action>, Result<bool>))
    ensures out.1.Ok? ==> out.1.value
    ensures out.1.Raise? <==> NameFromExif(fname, baseName, image).Raise?
  {
    match NameFromExif(fname, baseName, image)
      case Raise(e) => ([MakeDir(destFolder)], Raise(e))
      case Ok(newName) =>
        ([MakeDir(destFolder), Copy(fname, PathJoin(destFolder, newName))]
           + (if deleteOriginal then [Unlink(fname)] else []),
         Ok(true))
  }

  /** `rename_image` touches the file system exactly as the later
      `copy_and_rename` does without a progressive id, and fails exactly when it
      does, with the same error. */
  lemma RenameImageAsCopyAndRename(fname: string, destFolder: string, baseName: string, deleteOriginal: bool,
                                   image: Result<Exif>)
    ensures var out := RenameImage(fname, destFolder, baseName, deleteOriginal, image);
      var later := Renaming.CopyAndRename(fname, destFolder, baseName, None, deleteOriginal, image);
      && out.0 == later.0
      && (out.1.Raise? <==> later.1.Raise?)
      && (out.1.Raise? ==> out.1.error == later.1.error)
  {
    NameWithoutId(fname, baseName, image);
  }
}
