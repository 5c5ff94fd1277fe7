/** The upload middleware: which files are accepted, the name each is stored
    under and the size ceiling (backend/src/middleware/upload.ts). */
module Upload {
  import opened Common

  /** A file as the client sends it. */
  datatype IncomingFile = IncomingFile(originalname: string, mimetype: string, size: nat)

  /** A file as stored on disk and handed to the controllers. */
  datatype StoredFile = StoredFile(filename: string, originalname: string, mimetype: string, size: nat)

  /** The outcome for one file: stored, or the error the request fails with. */
  datatype Admission = Stored(file: StoredFile) | Rejected(message: string)

  const AllowedMimes: seq<string> := [
    "image/jpeg",
    "image/png",
    "image/gif",
    "image/webp",
    "application/pdf",
    "application/msword",
    "application/vnd.openxmlformats-officedocument.wordprocessingml.document",
    "application/vnd.ms-excel",
    "application/vnd.openxmlformats-officedocument.spreadsheetml.sheet",
    "text/plain",
    "text/csv"
  ]

  const InvalidTypeMessage: string := "Invalid file type. Only images and documents are allowed."

  /** The error the size limit raises. */
  const TooLargeMessage: string := "File too large"

  /** The size ceiling when the environment sets none. */
  const DefaultMaxFileSize: nat := 10485760

  /** `config.maxFileSize`. */
  function MaxFileSize(configured: Option<nat>): (n: nat)
    ensures configured.None? ==> n == DefaultMaxFileSize
  {
    if configured.Some? then configured.value else DefaultMaxFileSize
  }

  /** `fileFilter`: only the mimetype is consulted. */
  predicate Accepts(f: IncomingFile) {
    f.mimetype in AllowedMimes
  }

  /** The allow-list names eleven distinct types, images first. */
  lemma AllowedMimesSpec()
    ensures |AllowedMimes| == 11
    ensures forall i, j :: 0 <= i < j < |AllowedMimes| ==> AllowedMimes[i] != AllowedMimes[j]
  {
  }

  /** `path.extname` of a base name: from the last '.' on, except that a name
      whose only dot is its first character (`.env`), or the name `..`, has no
      extension. */
  function ExtName(name: string): (ext: string)
    ensures ext == [] || (ext[0] == '.' && |ext| <= |name| && ext == name[|name| - |ext|..] && forall k :: 0 < k < |ext| ==> ext[k] != '.')
    ensures ext == [] <==> (LastIndexOf(name, '.').None? || LastIndexOf(name, '.') == Some(0) || name == "..")
  {
    match LastIndexOf(name, '.')
    case None => ""
    case Some(d) => if d == 0 || name == ".." then "" else name[d..]
  }

  /** The `filename` callback: `<now>-<random><extension>`. */
  function StoredName(now: nat, random: nat, originalname: string): string {
    NatToString(now) + "-" + NatToString(random) + ExtName(originalname)
  }

  /** The stored name splits back into its parts: the time stamp is the run of
      digits before the first '-', the random number the run of digits after
      it, and the rest is the extension of the original name. */
  lemma {:induction false} StoredNameSplits(now: nat, random: nat, originalname: string)
    ensures var n := StoredName(now, random, originalname);
      var t, r := NatToString(now), NatToString(random);
      n[..|t|] == t && n[|t|] == '-' && (forall k :: 0 <= k < |t| ==> n[k] != '-') &&
      n[|t| + 1..|t| + 1 + |r|] == r && n[|t| + 1 + |r|..] == ExtName(originalname) &&
      (ExtName(originalname) == [] || ExtName(originalname)[0] == '.')
  {
    var t, r, e := NatToString(now), NatToString(random), ExtName(originalname);
    var n := StoredName(now, random, originalname);
    assert n == t + "-" + r + e;
    assert n[..|t|] == t;
    assert n[|t| + 1..|t| + 1 + |r|] == r;
    assert n[|t| + 1 + |r|..] == e;
  }

  /** What the middleware does with one file: the type filter first, then the
      size limit, then storage under a fresh name. */
  function Admit(f: IncomingFile, limit: nat, now: nat, random: nat): (a: Admission)
    ensures a.Stored? <==> Accepts(f) && f.size <= limit
    ensures !Accepts(f) ==> a == Rejected(InvalidTypeMessage)
    ensures Accepts(f) && f.size > limit ==> a == Rejected(TooLargeMessage)
    ensures a.Stored? ==>
      a.file == StoredFile(StoredName(now, random, f.originalname), f.originalname, f.mimetype, f.size)
  {
    if !Accepts(f) then Rejected(InvalidTypeMessage)
    else if f.size > limit then Rejected(TooLargeMessage)
    else Stored(StoredFile(StoredName(now, random, f.originalname), f.originalname, f.mimetype, f.size))
  }

  /** Files that differ only in name and size get the same type decision. */
  lemma TypeDecisionOnlyByMime(f: IncomingFile, g: IncomingFile, limit: nat, now: nat, random: nat)
    requires f.mimetype == g.mimetype
    ensures Admit(f, limit, now, random) == Rejected(InvalidTypeMessage) <==>
            Admit(g, limit, now, random) == Rejected(InvalidTypeMessage)
  {
  }
}
