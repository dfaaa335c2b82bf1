/** SaveSingle: accept an uploaded file only if its sniffed content type
    matches the allow-list, and store it under a generated name that keeps
    nothing of the client's file name but its extension. Content sniffing,
    id generation, path cleaning and the file system are oracles. */
module Upload {
  import opened Common
  import opened Structs

  /** The sniffer reads exactly this many bytes. */
  const SniffLen: int := 512

  datatype UploadResult = UploadResult(field: string, name: string, path: string, mimeType: string)

  /** What each file-system step returns: opening the part, reading it
      (beyond end of data), rewinding, creating the folder, creating the
      target and copying into it. */
  datatype Disk = Disk(openErr: Option<Error>, readErr: Option<Error>, seekErr: Option<Error>,
                       mkdirErr: Option<Error>, createErr: Option<Error>, copyErr: Option<Error>)

  /** The oracles: http.DetectContentType, a new UUID's text and
      filepath.Clean. */
  datatype Env = Env(sniff: seq<byte> -> string, id: string, clean: string -> string)

  /** The 512-byte buffer handed to the sniffer: the first bytes of the
      content, zero-filled when the content is shorter. */
  function SniffBuffer(content: seq<byte>): (b: seq<byte>)
    ensures |b| == SniffLen
    ensures forall i :: 0 <= i < |b| ==> b[i] == if i < |content| then content[i] else 0
  {
    seq(SniffLen, i requires 0 <= i < SniffLen => if i < |content| then content[i] else 0)
  }

  /** Whether some allowed type is a prefix of the sniffed type; an empty
      list allows everything. */
  predicate Allowed(contentType: string, allowed: seq<string>)
  {
    |allowed| == 0 || exists t :: t in allowed && HasPrefix(contentType, t)
  }

  /** filepath.Ext with '/' as separator: the suffix from the last '.' of
      the last path element, or "" when that element has no '.'. */
  function Ext(path: string): (e: string)
    ensures |e| <= |path| && e == path[|path| - |e|..]
    ensures e == "" || e[0] == '.'
    ensures NoChar(e, '/')
    ensures e != "" ==> NoChar(e[1..], '.')
    decreases |path|
  {
    if |path| == 0 then ""
    else
      var c := path[|path| - 1];
      if c == '/' then ""
      else if c == '.' then "."
      else
        var e := Ext(path[..|path| - 1]);
        if e == "" then "" else e + [c]
  }

  /** The last element of a path: everything after its last '/'. */
  function LastElem(path: string): (b: string)
    ensures |b| <= |path| && b == path[|path| - |b|..]
    ensures NoChar(b, '/')
    decreases |path|
  {
    if |path| == 0 || path[|path| - 1] == '/' then ""
    else LastElem(path[..|path| - 1]) + [path[|path| - 1]]
  }

  /** Ext looks only at the last element: it is empty exactly when that
      element has no dot, and otherwise a suffix of it. */
  lemma {:induction false} ExtOfLastElem(path: string)
    ensures Ext(path) == "" <==> NoChar(LastElem(path), '.')
    ensures |Ext(path)| <= |LastElem(path)|
    decreases |path|
  {
    if |path| > 0 && path[|path| - 1] != '/' {
      var init := path[..|path| - 1];
      var c := path[|path| - 1];
      ExtOfLastElem(init);
      var b := LastElem(path);
      assert b == LastElem(init) + [c];
      assert b[|b| - 1] == c;
      if c != '.' {
        assert NoChar(b, '.') <==> NoChar(LastElem(init), '.') by {
          assert forall i :: 0 <= i < |LastElem(init)| ==> b[i] == LastElem(init)[i];
        }
      }
    }
  }

  /** filepath.Join(folder, name) for a non-empty name. */
  function JoinPath(folder: string, name: string, clean: string -> string): string
  {
    if folder == "" then clean(name) else clean(folder + "/" + name)
  }

  /** SaveSingle. A nil file is neither an error nor a result; every
      failing step returns its error and no result. */
  function SaveSingle(file: Option<FileHeader>, folder: string, allowed: seq<string>, env: Env, disk: Disk)
    : (r: (Option<UploadResult>, Option<Error>))
    ensures file.None? ==> r == (None, None)
    ensures r.0.Some? <==> r.1.None? && file.Some?
    ensures file.Some? && disk.openErr.None? && |file.value.content| == 0 ==> r == (None, Some(Text("EOF")))
    ensures file.Some? && r.0.Some? ==>
      var ct := env.sniff(SniffBuffer(file.value.content));
      && Allowed(ct, allowed)
      && r.0.value == UploadResult("", env.id + Ext(file.value.filename),
                                   JoinPath(folder, env.id + Ext(file.value.filename), env.clean), ct)
    ensures file.Some? && disk.openErr.None? && |file.value.content| > 0 && disk.readErr.None? && disk.seekErr.None? ==>
      var ct := env.sniff(SniffBuffer(file.value.content));
      && (!Allowed(ct, allowed) ==> r == (None, Some(Text("file type " + ct + " not allowed"))))
      && (Allowed(ct, allowed) && disk.mkdirErr.None? && disk.createErr.None? && disk.copyErr.None? ==> r.0.Some?)
  {
    match file
    case None => (None, None)
    case Some(f) =>
      if disk.openErr.Some? then (None, disk.openErr)
      else if |f.content| == 0 then (None, Some(Text("EOF")))
      else if disk.readErr.Some? then (None, disk.readErr)
      else
        var ct := env.sniff(SniffBuffer(f.content));
        if disk.seekErr.Some? then (None, disk.seekErr)
        else if !Allowed(ct, allowed) then (None, Some(Text("file type " + ct + " not allowed")))
        else
          var name := env.id + Ext(f.filename);
          var path := JoinPath(folder, name, env.clean);
          if disk.mkdirErr.Some? then (None, disk.mkdirErr)
          else if disk.createErr.Some? then (None, disk.createErr)
          else if disk.copyErr.Some? then (None, disk.copyErr)
          else (Some(UploadResult("", name, path, ct)), None)
  }

  /** The stored name never contains a separator taken from the client:
      with a separator-free id, the name is a single path element, and
      files whose names share an extension are stored under the same name
      for the same id, whatever their base names. */
  lemma StoredNameOpaque(f1: FileHeader, f2: FileHeader, folder: string, allowed: seq<string>, env: Env, disk: Disk)
    requires NoChar(env.id, '/')
    ensures var r1 := SaveSingle(Some(f1), folder, allowed, env, disk);
      r1.0.Some? ==> NoChar(r1.0.value.name, '/')
    ensures var r1 := SaveSingle(Some(f1), folder, allowed, env, disk);
      var r2 := SaveSingle(Some(f2), folder, allowed, env, disk);
      r1.0.Some? && r2.0.Some? && Ext(f1.filename) == Ext(f2.filename) ==> r1.0.value.name == r2.0.value.name
  {
    NoCharConcat(env.id, Ext(f1.filename), '/');
  }

  lemma NoCharConcat(a: string, b: string, c: char)
    requires NoChar(a, c) && NoChar(b, c)
    ensures NoChar(a + b, c)
  {
    assert forall i :: 0 <= i < |a + b| ==> (a + b)[i] == if i < |a| then a[i] else b[i - |a|];
  }

  /** The allow-list is not monotone in its length: once it has an entry,
      more entries only widen it, but the first entry can take acceptance
      away. The empty entry admits every type, and since the sniffed type
      carries its parameters, a bare media type still matches it. */
  lemma AllowListWidening(ct: string, allowed: seq<string>, more: seq<string>)
    ensures |allowed| > 0 && Allowed(ct, allowed) ==> Allowed(ct, allowed + more)
    ensures Allowed(ct, [""])
    ensures Allowed("image/png", []) && !Allowed("image/png", ["text/"])
    ensures Allowed("text/plain; charset=utf-8", ["image/", "text/plain"])
  {
    if |allowed| > 0 && Allowed(ct, allowed) {
      var t :| t in allowed && HasPrefix(ct, t);
      assert t in allowed + more;
    }
    assert "" in [""] && HasPrefix(ct, "");
    assert "text/plain" in ["image/", "text/plain"];
    assert HasPrefix("text/plain; charset=utf-8", "text/plain");
    assert "image/png"[0] != "text/"[0];
    assert forall t :: t in ["text/"] ==> t == "text/";
  }
}
