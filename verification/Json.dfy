/** Optional values, in place of Python's None and of absent dictionary keys. */
module Wrappers {

  datatype Option<+T> = None | Some(value: T) {
    function GetOr(default: T): T {
      match this
      case Some(v) => v
      case None => default
    }
  }
}

/** The values of a record, seen through Python's tests on them: those that JSON text can hold,
    and one for any other object. */
module JsonValues {
  import opened Wrappers

  /** A text: one of the words the code itself writes or compares with, or any other string. */
  datatype Text =
    | Queued | Running | Cancelling | Cancelled | Interrupted | Succeeded | Partial | Failed
    | Cancel | Unknown
    | Recovery | StreamExport | Carving | Ocr | Stt
    | DesktopOperationFailed | ErrorDesktopOperationFailed
    | TaskReceiptNotSaved | ErrorTaskReceiptNotSaved
    | Other(s: string)

  /** The keys of a result dictionary that a receipt keeps. */
  datatype SummaryKey =
    | NodeId | EvidenceId | OutputPath | ManifestPath | RunId | Sha256 | Stream
    | ExportedBytes | LogicalSize | OutputSize | RecoveredBytes | MissingRanges
    | MissingRangePolicy | IsPartial | RecoveryMethod | Warnings | Scope | Semantics
    | NextOffset | CoverageComplete | ScannedBytes | CandidateReadBytes | MaxFileBytes
    | SkippedSignatures | CandidateCount | CandidateIds

  /** A dictionary key: one that a receipt keeps, another one the code names, or any other. */
  datatype Key =
    | Kept(key: SummaryKey)
    | Candidates | JobType | JobStatusKey
    | Code | MessageKey | Retryable
    | Named(name: string)

  datatype Json =
    | Null
    | Bool(b: bool)
    | Num(n: real)
    | Str(t: Text)
    | List(items: seq<Json>)
    | Obj(fields: map<Key, Json>)
    | Unprintable

  /** bool(value) */
  predicate Truthy(j: Json) {
    match j
    case Null => false
    case Bool(b) => b
    case Num(n) => n != 0.0
    case Str(t) => t != Other("")
    case List(items) => items != []
    case Obj(fields) => fields != map[]
    case Unprintable => true
  }

  /** json.dumps does not raise. */
  predicate Printable(j: Json) {
    match j
    case List(items) => forall i | 0 <= i < |items| :: Printable(items[i])
    case Obj(fields) => forall k | k in fields :: Printable(fields[k])
    case Unprintable => false
    case _ => true
  }

  /** Lists and dictionaries cannot be looked up in a Python set. */
  predicate Hashable(j: Json) {
    !j.List? && !j.Obj?
  }

  function Get(fields: map<Key, Json>, key: Key): Option<Json> {
    if key in fields then Some(fields[key]) else None
  }

  /** The characters removed by str.strip(). */
  predicate IsSpace(c: char) {
    var n := c as int;
    || 9 <= n <= 13 || 28 <= n <= 32 || n == 0x85 || n == 0xa0 || n == 0x1680
    || 0x2000 <= n <= 0x200a || n == 0x2028 || n == 0x2029 || n == 0x202f || n == 0x205f || n == 0x3000
  }

  predicate Blank(t: Text) {
    t.Other? && forall c | c in t.s :: IsSpace(c)
  }
}
