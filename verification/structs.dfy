/** The reflective view of Go records that the binder and the row scanner
    work on: an ordered list of declared fields, each with its struct tags
    and kind, and a matching list of current values. */
module Structs {
  import opened Common

  type Tags = map<string, string>

  /** reflect.StructTag.Get: the value under `key`, or "" when absent. */
  function Tag(tags: Tags, key: string): string
  {
    if key in tags then tags[key] else ""
  }

  /** A multipart file part (*multipart.FileHeader). */
  datatype FileHeader = FileHeader(filename: string, content: seq<byte>)

  datatype Kind =
    | KString
    | KInt                          // int (64-bit)
    | KInt64
    | KBool
    | KFile                         // *multipart.FileHeader
    | KTime                         // time.Time
    | KStruct(fields: seq<FieldDecl>)
    | KOther(name: string)

  datatype FieldDecl = FieldDecl(name: string, tags: Tags, kind: Kind, embedded: bool, exported: bool)

  datatype Value =
    | VString(s: string)
    | VInt(i: int)
    | VBool(b: bool)
    | VFile(file: Option<FileHeader>)
    | VTime(t: int)
    | VStruct(fields: seq<Value>)
    | VOpaque(id: int)

  /** The zero value of each kind. */
  function Zero(k: Kind): Value
    decreases k
  {
    match k
    case KString => VString("")
    case KInt => VInt(0)
    case KInt64 => VInt(0)
    case KBool => VBool(false)
    case KFile => VFile(None)
    case KTime => VTime(ZeroTime)
    case KStruct(fs) => VStruct(seq(|fs|, i requires 0 <= i < |fs| => Zero(fs[i].kind)))
    case KOther(_) => VOpaque(0)
  }

  function ZeroRecord(t: seq<FieldDecl>): (r: seq<Value>)
    ensures |r| == |t|
  {
    seq(|t|, i requires 0 <= i < |t| => Zero(t[i].kind))
  }
}
