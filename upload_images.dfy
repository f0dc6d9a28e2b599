/** The upload helpers: recording an uploaded file's name in an update
    object, the public URL of a stored file, and the MIME type of an
    image format. Disk access (`removeSingleFile`, multer) is outside the
    model: the path of the file to remove is returned instead. */
module UploadImages {
  import opened Wrappers
  import opened JsValues
  import opened NodePath
  import opened Routing

  const StaticFolder := "static"

  datatype EntityType = ProfileEntity | ProjectEntity

  /** The part of multer's file record `updateFile` reads. */
  datatype UploadedFile = UploadedFile(path: string)

  /** Where the files of each entity type are stored. */
  function BaseFolder(e: EntityType): string {
    if e.ProfileEntity? then StaticFolder + "/avatars" else StaticFolder + "/projects"
  }

  /** The name `updateFile` stores: the last segment of the path once every
      backslash is turned into a slash. */
  function StoredName(path: string): (r: string)
    ensures forall i :: 0 <= i < |r| ==> r[i] != '/' && r[i] != '\\'
    ensures |r| <= |path| && r == SlashesForward(path)[|path| - |r|..]
  {
    var fwd := SlashesForward(path);
    var r := LastSegment(fwd);
    assert forall i :: 0 <= i < |r| ==> r[i] == fwd[|fwd| - |r| + i] != '\\';
    r
  }

  /** A Windows-style or a POSIX path gives the file name after its last
      separator. */
  lemma {:induction false} StoredNameAfterSeparator(dir: string, sep: char, name: string)
    requires sep == '/' || sep == '\\'
    requires forall i :: 0 <= i < |name| ==> name[i] != '/' && name[i] != '\\'
    ensures StoredName(dir + [sep] + name) == name
  {
    var p := dir + [sep] + name;
    var fwd := SlashesForward(p);
    assert fwd[|dir|] == '/';
    assert forall i :: |dir| < i < |p| ==> fwd[i] == name[i - |dir| - 1];
    var k := LastIndexOf(fwd, '/');
    assert k.Some? && k.value >= |dir|;
    if k.value > |dir| {
      assert false;
    }
    assert fwd[|dir| + 1..] == name;
  }

  /** What `updateFile` did. */
  datatype FileUpdate =
    | Unchanged                        // no file, or a file without a path
    | Assigned(removed: Option<string>) // the field now names the new file; the old file, if any, was removed
    | JoinFailed                       // the old value is not a string: `path.posix.join` throws before any change

  /** An update object that `updateFile` fills in in place. */
  class UpdateData {
    var fields: map<string, Json>

    constructor (fields: map<string, Json>)
      ensures this.fields == fields
    {
      this.fields := fields;
    }

    /** `updateFile(updateData, entityType, fieldname, file)`. */
    method UpdateFile(entity: EntityType, fieldname: string, file: Option<UploadedFile>) returns (r: FileUpdate)
      modifies this
      ensures (file.None? || file.value.path == "") ==> r == Unchanged && fields == old(fields)
      ensures r.JoinFailed? <==>
        file.Some? && file.value.path != "" && Truthy(Get(old(fields), fieldname)) && AsString(Get(old(fields), fieldname)).None?
      ensures r.JoinFailed? ==> fields == old(fields)
      ensures r.Assigned? ==>
        && file.Some?
        && fields == old(fields)[fieldname := JStr(StoredName(file.value.path))]
        && var prev := Get(old(fields), fieldname);
        && (r.removed.Some? <==> Truthy(prev))
        && (r.removed.Some? ==> r.removed.value == PosixJoin(BaseFolder(entity), AsString(prev).value))
      ensures r.Unchanged? ==> fields == old(fields)
    {
      if file.None? || file.value.path == "" {
        return Unchanged;
      }
      var filenameOnly := StoredName(file.value.path);
      var current := Get(fields, fieldname);
      var removed := None;
      if Truthy(current) {
        if AsString(current).None? {
          return JoinFailed;
        }
        removed := Some(PosixJoin(BaseFolder(entity), AsString(current).value));
      }
      fields := fields[fieldname := JStr(filenameOnly)];
      r := Assigned(removed);
    }
  }

  /** Both storage folders are what `path.posix.join(nameFolderStatic, …)`
      gives, and plain relative paths. */
  lemma BaseFolderPlain(e: EntityType)
    ensures PosixJoin(StaticFolder, if e.ProfileEntity? then "avatars" else "projects") == BaseFolder(e)
    ensures BaseFolder(e) != "" && BaseFolder(e)[0] != '/' && PlainPath(BaseFolder(e))
  {
    var sub := if e.ProfileEntity? then "avatars" else "projects";
    assert BaseFolder(e) == StaticFolder + "/" + sub;
    SplitTwo(BaseFolder(e), StaticFolder, sub);
    SplitNoSlash(StaticFolder);
    JoinPlainName(StaticFolder, sub);
  }

  /** The old file of a plain stored name is removed from the entity's
      folder: the join adds one slash and changes nothing else. */
  lemma RemovedPathOfStoredName(e: EntityType, name: string)
    requires KeptSegment(name) && forall i :: 0 <= i < |name| ==> name[i] != '/'
    ensures PosixJoin(BaseFolder(e), name) == BaseFolder(e) + "/" + name
  {
    BaseFolderPlain(e);
    JoinPlainName(BaseFolder(e), name);
  }

  /** An old value led by "../" names a file outside the entity's folder:
      the join resolves it against "static". */
  lemma RemovedPathClimbs(e: EntityType, name: string)
    requires KeptSegment(name) && forall i :: 0 <= i < |name| ==> name[i] != '/'
    ensures PosixJoin(BaseFolder(e), "../" + name) == StaticFolder + "/" + name
  {
    var sub := if e.ProfileEntity? then "avatars" else "projects";
    assert BaseFolder(e) == StaticFolder + "/" + sub;
    SplitNoSlash(StaticFolder);
    JoinParentName(StaticFolder, sub, name);
  }

  /** `generateFileUrl(filename, folder)`: `BACKEND_URL` (shown as
      "undefined" when unset) followed by the file's path under "static". */
  function GenerateFileUrl(filename: string, folder: string, backendUrl: Option<string>): (r: string)
    ensures |Show(backendUrl)| <= |r| && r[..|Show(backendUrl)|] == Show(backendUrl)
    ensures |filename| < |r| && r[|r| - |filename|..] == filename && r[|r| - |filename| - 1] == '/'
  {
    Show(backendUrl) + "/" + StaticFolder + "/" + folder + "/" + filename
  }

  /** The base name of a file's URL is the file's name, so a URL the server
      handed out names the stored file again when it comes back. */
  lemma UrlNamesFile(filename: string, folder: string, backendUrl: Option<string>)
    requires filename != [] && forall i :: 0 <= i < |filename| ==> filename[i] != '/'
    ensures Basename(GenerateFileUrl(filename, folder, backendUrl)) == filename
  {
    var dir := Show(backendUrl) + "/" + StaticFolder + "/" + folder;
    assert GenerateFileUrl(filename, folder, backendUrl) == dir + "/" + filename;
    BasenameAfterSlash(dir, filename);
  }

  // ------------------------------------------------------------ MIME types

  /** The own entries of the `formats` object literal. */
  const Formats: map<string, string> := map["png" := "image/png", "jpeg" := "image/jpeg", "jpg" := "image/jpeg"]

  /** The keys every object literal inherits from `Object.prototype` whose
      names are all lower case, so that `toLowerCase()` can produce them. */
  const LowerCaseProtoKeys: set<string> := {"constructor", "__proto__"}

  /** What `formats[key]` yields: an own string entry, or an inherited
      member (a function or an object, both truthy). */
  datatype Lookup = StrValue(s: string) | InheritedMember(key: string)

  /** `getMimeType(format)` as written: the bracket lookup also finds the
      inherited members, which are truthy and so returned as they are. */
  function GetMimeTypeAsWritten(format: string): (r: Lookup)
    ensures ToLowerAscii(format) in LowerCaseProtoKeys ==> r == InheritedMember(ToLowerAscii(format))
  {
    var key := ToLowerAscii(format);
    if key in Formats then StrValue(Formats[key])
    else if key in LowerCaseProtoKeys then InheritedMember(key)
    else StrValue("image/png")
  }

  /** For "constructor" (in any letter case) and "__proto__" the function
      as written returns no MIME type at all. */
  lemma GetMimeTypeAsWrittenLeaksPrototype()
    ensures GetMimeTypeAsWritten("constructor") == InheritedMember("constructor")
    ensures GetMimeTypeAsWritten("Constructor") == InheritedMember("constructor")
    ensures GetMimeTypeAsWritten("__proto__") == InheritedMember("__proto__")
  {
    assert ToLowerAscii("constructor") == "constructor";
    assert ToLowerAscii("Constructor") == "constructor";
    assert ToLowerAscii("__proto__") == "__proto__";
  }

  /** `getMimeType(format)` with an own-key lookup: png is image/png,
      jpeg and jpg are image/jpeg, in any ASCII letter case, and anything
      else falls back to image/png. */
  function GetMimeType(format: string): (r: string)
    ensures r == "image/png" || r == "image/jpeg"
    ensures r == "image/jpeg" <==> ToLowerAscii(format) == "jpeg" || ToLowerAscii(format) == "jpg"
  {
    var key := ToLowerAscii(format);
    if key in Formats then Formats[key] else "image/png"
  }

  /** The two agree on every format except the inherited keys. */
  lemma MimeTypeAsWrittenAgrees(format: string)
    requires ToLowerAscii(format) !in LowerCaseProtoKeys
    ensures GetMimeTypeAsWritten(format) == StrValue(GetMimeType(format))
  {
  }
}
