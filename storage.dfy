/**
 * The storage gateway of `src/lib/supabase.ts`: listing a folder of the
 * `media` bucket, building the key of an upload, uploading and deleting.
 *
 * The storage client is a foreign library. Each backend call is a function
 * parameter giving the backend's answer for the folder or key it is asked
 * about, so a result that does not depend on that parameter is a result
 * reached without calling the backend.
 */
module Storage {
  import opened Wrappers
  import opened Text
  import opened Seqs

  /** A value thrown by a failing call: an `Error` with its message, or any other value. */
  datatype Thrown = ErrorObject(message: string) | OtherValue {
    /** `err instanceof Error ? err.message : fallback` */
    function MessageOr(fallback: string): string {
      if ErrorObject? then message else fallback
    }
  }

  /**
   * The shared client, created once from the two environment values. When
   * either is missing there is no client; otherwise the client knows the
   * public URL prefix of the bucket.
   */
  datatype Client = Unconfigured | Configured(publicBase: string)

  const NotConfiguredMessage: string :=
    "Supabase is not configured. Define VITE_SUPABASE_URL and VITE_SUPABASE_ANON_KEY."

  /** The folder an upload goes to when the caller names none. */
  const DefaultUploadFolder: string := "general"

  /** One entry of a raw listing; files carry an `id`, sub-folders do not. */
  datatype RawEntry = RawEntry(name: string, id: Option<string>, createdAt: int)

  /** A listed file: the raw entry's fields plus its storage key and public URL. */
  datatype MediaFile = MediaFile(name: string, id: Option<string>, createdAt: int,
                                 fullPath: string, publicUrl: string)

  /** The backend's answer to a listing: an error, or data that may be missing. */
  datatype ListResponse = ListFailed(err: Thrown) | Listed(data: Option<seq<RawEntry>>)

  /** The backend's answer to an upload: the stored path, or an error. */
  datatype UploadResponse = Stored(path: string) | UploadFailed(err: Thrown)

  /** The file picked in the browser: its name and declared MIME type. */
  datatype LocalFile = LocalFile(name: string, mimeType: string)

  /** What `uploadMedia` resolves to. */
  datatype Uploaded = Uploaded(path: string, publicUrl: string)

  /** The public URL of a key: the bucket's public prefix followed by the key. */
  function PublicUrl(base: string, path: string): string {
    base + path
  }

  /** Distinct keys of one bucket have distinct public URLs, and equal keys equal URLs. */
  lemma PublicUrlInjective(base: string, p: string, q: string)
    ensures PublicUrl(base, p) == PublicUrl(base, q) <==> p == q
  {
    if PublicUrl(base, p) == PublicUrl(base, q) {
      assert p == PublicUrl(base, p)[|base|..];
    }
  }

  /** The key of a listed file: `folder/name`, or just `name` at the bucket root. */
  function FullPath(folder: string, name: string): string {
    if folder != "" then folder + "/" + name else name
  }

  /** `item.id` is truthy: present and not the empty string. */
  predicate IsFile(e: RawEntry) {
    e.id.Some? && e.id.value != ""
  }

  /** One kept raw entry with its key and URL attached. */
  function ToMediaFile(base: string, folder: string, e: RawEntry): MediaFile {
    var path := FullPath(folder, e.name);
    MediaFile(e.name, e.id, e.createdAt, path, PublicUrl(base, path))
  }

  /** `listMedia(folder)`; the folder defaults to the bucket root. */
  function ListMedia(client: Client, folder: string := "", list: string -> ListResponse)
    : (r: Result<seq<MediaFile>, Thrown>)
    ensures client.Unconfigured? ==> r == Success([])
    ensures client.Configured? && list(folder).ListFailed? ==> r == Failure(list(folder).err)
    ensures client.Configured? && list(folder) == Listed(None) ==> r == Success([])
    ensures client.Configured? && list(folder).Listed? && list(folder).data.Some? ==>
      var files := Filter(IsFile, list(folder).data.value);
      && r.Success? && |r.value| == |files|
      && forall i :: 0 <= i < |files| ==>
           && r.value[i].name == files[i].name
           && r.value[i].id == files[i].id
           && r.value[i].createdAt == files[i].createdAt
           && r.value[i].fullPath == FullPath(folder, files[i].name)
           && r.value[i].publicUrl == PublicUrl(client.publicBase, r.value[i].fullPath)
  {
    match client
    case Unconfigured => Success([])
    case Configured(base) =>
      match list(folder)
      case ListFailed(err) => Failure(err)
      case Listed(None) => Success([])
      case Listed(Some(data)) =>
        var files := Filter(IsFile, data);
        Success(seq(|files|, i requires 0 <= i < |files| => ToMediaFile(base, folder, files[i])))
  }

  /**
   * Folder isolation: every file listed under a non-empty folder has a key
   * in that folder ending with its name, and every listed file carries a
   * non-empty id.
   */
  lemma ListMediaInFolder(client: Client, folder: string, list: string -> ListResponse)
    requires folder != ""
    requires ListMedia(client, folder, list).Success?
    ensures forall m :: m in ListMedia(client, folder, list).value ==>
      StartsWith(m.fullPath, folder + "/") && m.id.Some? && m.id.value != "" && EndsWith(m.fullPath, m.name)
  {
    var files := ListMedia(client, folder, list).value;
    forall m | m in files
      ensures StartsWith(m.fullPath, folder + "/") && m.id.Some? && m.id.value != "" && EndsWith(m.fullPath, m.name)
    {
      var i :| 0 <= i < |files| && files[i] == m;
      var data := list(folder).data.value;
      assert Filter(IsFile, data)[i] in data;
      assert m.fullPath == folder + "/" + m.name;
      assert m.fullPath[..|folder + "/"|] == folder + "/";
      assert m.fullPath[|m.fullPath| - |m.name|..] == m.name;
    }
  }

  /** A listing that names no folder lists the bucket root: each key is the file's name. */
  lemma ListRootKeys(client: Client, list: string -> ListResponse)
    requires ListMedia(client, list := list).Success?
    ensures forall m :: m in ListMedia(client, list := list).value ==>
      m.fullPath == m.name && m.publicUrl == PublicUrl(client.publicBase, m.name)
  {
    var files := ListMedia(client, list := list).value;
    forall m | m in files
      ensures m.fullPath == m.name && m.publicUrl == PublicUrl(client.publicBase, m.name)
    {
      var i :| 0 <= i < |files| && files[i] == m;
    }
  }

  /** Without a client the listing is empty whatever the backend would have answered. */
  lemma ListUnconfiguredNoCall(folder: string, l1: string -> ListResponse, l2: string -> ListResponse)
    ensures ListMedia(Unconfigured, folder, l1) == ListMedia(Unconfigured, folder, l2) == Success([])
  {
  }

  /** The extension part of an upload key: `name.split('.').pop()`. */
  function Extension(name: string): string {
    AfterLast(name, '.')
  }

  /** The extension is the text after the last `.`, or the whole name without one. */
  lemma ExtensionSpec(name: string)
    ensures '.' !in Extension(name)
    ensures EndsWith(name, Extension(name))
    ensures '.' !in name <==> Extension(name) == name
    ensures '.' in name ==> name[|name| - |Extension(name)| - 1] == '.'
  {
    AfterLastSpec(name, '.');
    var e := Extension(name);
    if '.' in name {
      var front := name[..|name| - |e| - 1];
      assert name == front + ['.'] + e;
      assert name[|name| - |e| - 1] == (front + ['.'] + e)[|front|];
    }
  }

  /** `${folder}/${Date.now()}-${token}.${fileExt}` */
  function UploadKey(folder: string, fileName: string, now: nat, token: string): string {
    folder + "/" + NatToString(now) + "-" + token + "." + Extension(fileName)
  }

  /** The shape of an upload key. */
  lemma UploadKeyShape(folder: string, fileName: string, now: nat, token: string)
    ensures var key := UploadKey(folder, fileName, now, token);
      && StartsWith(key, folder + "/")
      && key[|folder| + 1..|folder| + 1 + |NatToString(now)| + 1 + |token|]
         == NatToString(now) + "-" + token
      && EndsWith(key, "." + Extension(fileName))
  {
    var key := UploadKey(folder, fileName, now, token);
    var stamp := NatToString(now) + "-" + token;
    var ext := "." + Extension(fileName);
    assert key == (folder + "/") + stamp + ext;
    assert key[..|folder + "/"|] == folder + "/";
    assert key[|folder| + 1..|folder| + 1 + |stamp|] == stamp;
    assert key[|key| - |ext|..] == ext;
  }

  /** A `-` right after a digit string marks where it ends. */
  lemma DigitsThenDash(d1: string, a: string, d2: string, b: string)
    requires forall k :: 0 <= k < |d1| ==> IsDigit(d1[k])
    requires forall k :: 0 <= k < |d2| ==> IsDigit(d2[k])
    requires d1 + "-" + a == d2 + "-" + b
    ensures d1 == d2 && a == b
  {
    var s := d1 + "-" + a;
    assert s[|d1|] == '-' && s[|d2|] == '-';
    assert d1 == s[..|d1|] == d2;
    assert a == s[|d1| + 1..] == b;
  }

  /** A `.` followed by text without one marks where that text starts. */
  lemma DotThenPlain(k1: string, e1: string, k2: string, e2: string)
    requires '.' !in e1 && '.' !in e2
    requires k1 + "." + e1 == k2 + "." + e2
    ensures k1 == k2 && e1 == e2
  {
    var s := k1 + "." + e1;
    assert s[|s| - |e1| - 1] == '.' && s[|s| - |e2| - 1] == '.';
    assert e1 == s[|s| - |e1|..] == e2;
    assert k1 == s[..|k1|] == k2;
  }

  /**
   * Collision avoidance: within one folder, the key determines the
   * timestamp, the token (when neither token holds a `.`) and the extension,
   * so two uploads that differ in timestamp or token get different keys.
   */
  lemma UploadKeyInjective(folder: string, n1: string, n2: string, t1: nat, t2: nat,
                           k1: string, k2: string)
    requires '.' !in k1 && '.' !in k2
    requires UploadKey(folder, n1, t1, k1) == UploadKey(folder, n2, t2, k2)
    ensures t1 == t2 && k1 == k2 && Extension(n1) == Extension(n2)
  {
    var key := UploadKey(folder, n1, t1, k1);
    var e1, e2 := Extension(n1), Extension(n2);
    ExtensionSpec(n1);
    ExtensionSpec(n2);
    var s1, s2 := k1 + "." + e1, k2 + "." + e2;
    var r1 := NatToString(t1) + "-" + s1;
    var r2 := NatToString(t2) + "-" + s2;
    assert key == (folder + "/") + r1 && key == (folder + "/") + r2;
    assert r1 == key[|folder| + 1..] == r2;
    DigitsThenDash(NatToString(t1), s1, NatToString(t2), s2);
    NatToStringInjective(t1, t2);
    DotThenPlain(k1, e1, k2, e2);
  }

  /** `uploadMedia(file, folder)`: one storage call with the generated key. */
  function UploadMedia(client: Client, file: LocalFile, folder: string := DefaultUploadFolder, now: nat, token: string,
                       store: string -> UploadResponse): (r: Result<Uploaded, Thrown>)
    ensures client.Unconfigured? ==> r == Failure(ErrorObject(NotConfiguredMessage))
    ensures client.Configured? ==>
      var answer := store(UploadKey(folder, file.name, now, token));
      && (answer.UploadFailed? ==> r == Failure(answer.err))
      && (answer.Stored? ==>
            r == Success(Uploaded(answer.path, PublicUrl(client.publicBase, answer.path))))
  {
    match client
    case Unconfigured => Failure(ErrorObject(NotConfiguredMessage))
    case Configured(base) =>
      match store(UploadKey(folder, file.name, now, token))
      case UploadFailed(err) => Failure(err)
      case Stored(path) => Success(Uploaded(path, PublicUrl(base, path)))
  }

  /** `deleteMedia(path)`: one storage call removing `path`. */
  function DeleteMedia(client: Client, path: string, remove: string -> Option<Thrown>)
    : (r: Result<(), Thrown>)
    ensures client.Unconfigured? ==> r == Failure(ErrorObject(NotConfiguredMessage))
    ensures client.Configured? ==> (r.Success? <==> remove(path).None?)
    ensures client.Configured? && remove(path).Some? ==> r.error == remove(path).value
  {
    match client
    case Unconfigured => Failure(ErrorObject(NotConfiguredMessage))
    case Configured(_) =>
      match remove(path)
      case None => Success(())
      case Some(err) => Failure(err)
  }

  /** An upload that names no folder asks the backend to store a key under `general/`. */
  lemma UploadDefaultFolder(base: string, file: LocalFile, now: nat, token: string,
                            store: string -> UploadResponse)
    ensures var r := UploadMedia(Configured(base), file, now := now, token := token, store := store);
      exists key :: StartsWith(key, "general/") &&
        (store(key).UploadFailed? ==> r == Failure(store(key).err)) &&
        (store(key).Stored? ==> r.Success? && r.value.path == store(key).path)
  {
    var key := UploadKey(DefaultUploadFolder, file.name, now, token);
    UploadKeyShape(DefaultUploadFolder, file.name, now, token);
    assert StartsWith(key, "general/");
  }

  /** Without a client, writes fail with the configuration error before any storage call. */
  lemma WritesUnconfiguredNoCall(file: LocalFile, folder: string, now: nat, token: string,
                                 s1: string -> UploadResponse, s2: string -> UploadResponse,
                                 path: string, d1: string -> Option<Thrown>, d2: string -> Option<Thrown>)
    ensures UploadMedia(Unconfigured, file, folder, now, token, s1)
         == UploadMedia(Unconfigured, file, folder, now, token, s2)
    ensures DeleteMedia(Unconfigured, path, d1) == DeleteMedia(Unconfigured, path, d2)
  {
  }
}
