/** The path-string helpers of glai/helpers/file_handler.py. `os.path.splitext` is a parameter
    `splitext` returning (root, ext); only `SplitsPath` (root + ext == path) is assumed of it,
    and only where a lemma needs it. */
module FileHandler {
  import opened Wrappers
  import opened Strings

  /** What every `os.path.splitext` promises: root followed by ext is the path. */
  ghost predicate SplitsPath(splitext: string -> (string, string))
  {
    forall p :: splitext(p).0 + splitext(p).1 == p
  }

  /** An extension with "." prefixed unless it already contains a "." anywhere. */
  function Dotted(ext: string): (r: string)
    ensures '.' in r
    ensures '.' in ext ==> r == ext
    ensures '.' !in ext ==> |r| == |ext| + 1 && r[0] == '.' && r[1..] == ext
  {
    if '.' in ext then ext else "." + ext
  }

  /** `get_extension`. */
  function GetExtension(splitext: string -> (string, string), filePath: string): (r: Option<string>)
    ensures r.Some? <==> '.' in splitext(filePath).1
    ensures r.Some? ==> r.value == splitext(filePath).1
  {
    var ext := splitext(filePath).1;
    if '.' in ext then Some(ext) else None
  }

  /** `remove_extension`. */
  function RemoveExtension(splitext: string -> (string, string), filePath: string): (r: string)
    ensures GetExtension(splitext, filePath).None? ==> r == filePath
    ensures GetExtension(splitext, filePath).Some? ==> r == splitext(filePath).0
  {
    if GetExtension(splitext, filePath).Some? then splitext(filePath).0 else filePath
  }

  /** Removing the extension and putting it back gives the path again. */
  lemma RemoveThenRestore(splitext: string -> (string, string), filePath: string)
    requires SplitsPath(splitext)
    ensures GetExtension(splitext, filePath).Some? ==>
      RemoveExtension(splitext, filePath) + GetExtension(splitext, filePath).value == filePath
    ensures GetExtension(splitext, filePath).Some? ==> EndsWith(filePath, GetExtension(splitext, filePath).value)
  {
    var (root, ext) := splitext(filePath);
    assert root + ext == filePath;
    assert filePath[|filePath| - |ext|..] == ext;
  }

  /** `_add_extension_if_not_exists`. */
  function AddExtensionIfNotExists(splitext: string -> (string, string), filePath: string, extension: string): (r: string)
    ensures GetExtension(splitext, filePath).Some? ==> r == filePath
    ensures GetExtension(splitext, filePath).None? ==>
      |r| == |filePath| + |Dotted(extension)| && r[..|filePath|] == filePath && r[|filePath|..] == Dotted(extension)
    ensures GetExtension(splitext, filePath).None? ==> EndsWith(r, extension)
  {
    var ext := Dotted(extension);
    if GetExtension(splitext, filePath).None? then filePath + ext else filePath
  }

  /** `change_extension`: the path without its extension, followed by the dotted new extension. */
  function ChangeExtension(splitext: string -> (string, string), filePath: string, newExtension: string): (r: string)
    ensures EndsWith(r, Dotted(newExtension)) && EndsWith(r, newExtension)
    ensures r[..|r| - |Dotted(newExtension)|] == RemoveExtension(splitext, filePath)
  {
    RemoveExtension(splitext, filePath) + Dotted(newExtension)
  }

  /** The extension list argument of `is_file_format`: a lone string, a list, or the default None. */
  datatype Extensions = OneExtension(ext: string) | ExtensionList(exts: seq<string>) | NoExtensions

  /** `is_file_format`: true when the path ends with some entry, dot-prefixed when the entry has no
      "."; iterating the default None raises TypeError. */
  method IsFileFormat(filePath: string, supportedExtensions: Extensions) returns (r: Result<bool>)
    ensures supportedExtensions.NoExtensions? ==> r == Failure(TypeError)
    ensures supportedExtensions.OneExtension? ==>
      r == Success(EndsWith(filePath, Dotted(supportedExtensions.ext)))
    ensures supportedExtensions.ExtensionList? ==>
      r == Success(exists i :: 0 <= i < |supportedExtensions.exts| &&
                               EndsWith(filePath, Dotted(supportedExtensions.exts[i])))
  {
    match supportedExtensions {
      case NoExtensions =>
        r := Failure(TypeError);
      case OneExtension(e) =>
        var b := EndsWithAny(filePath, [e]);
        assert b == EndsWith(filePath, Dotted([e][0]));
        r := Success(b);
      case ExtensionList(es) =>
        var b := EndsWithAny(filePath, es);
        r := Success(b);
    }
  }

  /** The loop of `is_file_format`: the first entry the path ends with decides. */
  method EndsWithAny(filePath: string, exts: seq<string>) returns (b: bool)
    ensures b <==> exists i :: 0 <= i < |exts| && EndsWith(filePath, Dotted(exts[i]))
  {
    for i := 0 to |exts|
      invariant forall j :: 0 <= j < i ==> !EndsWith(filePath, Dotted(exts[j]))
    {
      var ext := Dotted(exts[i]);
      if EndsWith(filePath, ext) {
        return true;
      }
    }
    return false;
  }

  /** The default list of `is_file_image`. */
  const DefaultImageExtensions: seq<string> :=
    [".jpg", ".jpeg", ".png", ".gif", ".ico", ".svg", ".svgz", ".bmp", ".tiff", ".tif"]

  /** `is_file_image`: a caller-supplied list (null for the default None) is rewritten in place,
      each entry without a "." getting one prefixed; the result says whether the path's extension
      is in the list. */
  method IsFileImage(splitext: string -> (string, string), filePath: string, supportedExtensions: array?<string>)
    returns (r: bool)
    modifies supportedExtensions
    ensures supportedExtensions != null ==>
      |supportedExtensions[..]| == |old(supportedExtensions[..])| &&
      forall i :: 0 <= i < supportedExtensions.Length ==> supportedExtensions[i] == Dotted(old(supportedExtensions[i]))
    ensures var exts := if supportedExtensions == null then DefaultImageExtensions else supportedExtensions[..];
      r <==> GetExtension(splitext, filePath).Some? && GetExtension(splitext, filePath).value in exts
  {
    var exts: seq<string>;
    if supportedExtensions == null {
      exts := DefaultImageExtensions;
    } else {
      for i := 0 to supportedExtensions.Length
        invariant forall j :: 0 <= j < i ==> supportedExtensions[j] == Dotted(old(supportedExtensions[j]))
        invariant forall j :: i <= j < supportedExtensions.Length ==> supportedExtensions[j] == old(supportedExtensions[j])
      {
        if '.' in supportedExtensions[i] {
          supportedExtensions[i] := supportedExtensions[i];
        } else {
          supportedExtensions[i] := "." + supportedExtensions[i];
        }
      }
      exts := supportedExtensions[..];
    }
    var ext := GetExtension(splitext, filePath);
    r := ext.Some? && ext.value in exts;
  }
}
