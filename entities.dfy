/**
  The records of the user directory: users, the files they upload and the
  links they shorten, with the getters each record derives from its stored
  fields (`Epoch`, `BakaUploaderId`, `ContentType`). None of the derived
  values is stored: each is a function of the record.
*/
module Entities {
  import opened Wrappers

  /** A `double` amount of megabytes, kept as its IEEE 754 bit pattern: it is
      passed through and never computed with. */
  type Megabytes = bv64

  /** A point in time as the value `ToFileTimeUtc` gives for it: a `long`
      counting 100-nanosecond intervals since 1601-01-01 UTC. */
  type FileTime = t: int | 0 <= t < 0x8000_0000_0000_0000

  // ---------------------------------------------------------------------
  // The text form of a timestamp (`long.ToString()` on a file time)
  // ---------------------------------------------------------------------

  predicate IsDigit(c: char) {
    '0' <= c <= '9'
  }

  predicate IsDigits(s: string) {
    forall k :: 0 <= k < |s| ==> IsDigit(s[k])
  }

  function DigitChar(d: nat): (c: char)
    requires d < 10
    ensures IsDigit(c) && c as int - '0' as int == d
  {
    ('0' as int + d) as char
  }

  /** The decimal numeral of `n`: digits only, most significant first, and
      no leading zero except in "0" itself. */
  function DecimalString(n: nat): (s: string)
    ensures |s| >= 1 && IsDigits(s)
    ensures s[0] == '0' ==> n == 0
    decreases n
  {
    if n < 10 then [DigitChar(n)] else DecimalString(n / 10) + [DigitChar(n % 10)]
  }

  /** The number a decimal numeral denotes: how a client reads an epoch string back. */
  function ParseDecimal(s: string): nat
    requires IsDigits(s)
  {
    if s == [] then 0 else 10 * ParseDecimal(s[..|s| - 1]) + (s[|s| - 1] as int - '0' as int)
  }

  /** Reading the numeral back gives the number that was rendered. */
  lemma {:induction false} ParseDecimalString(n: nat)
    ensures ParseDecimal(DecimalString(n)) == n
  {
    if n >= 10 {
      var s := DecimalString(n);
      assert s[..|s| - 1] == DecimalString(n / 10);
      ParseDecimalString(n / 10);
    }
  }

  /** The epoch string every record exposes for its `Timestamp`: the file
      time as decimal text, from which the timestamp can be read back. */
  function EpochOf(t: FileTime): (s: string)
    ensures IsDigits(s) && ParseDecimal(s) == t
  {
    ParseDecimalString(t);
    DecimalString(t)
  }

  /** Two timestamps render to the same epoch string exactly when they are equal. */
  lemma EpochInjective(t1: FileTime, t2: FileTime)
    ensures EpochOf(t1) == EpochOf(t2) <==> t1 == t2
  {
  }

  // ---------------------------------------------------------------------
  // Records
  // ---------------------------------------------------------------------

  /** An uploaded file. `Uploader` is the navigation to the owning user,
      represented by that user's `Id`; `None` is a file whose owner was not
      loaded (a `null` reference). */
  datatype BakaFile = BakaFile(
    BackendFileId: string,
    Id: int,
    ExternalId: string,
    Filename: string,
    Extension: string,
    IpUploadedFrom: string,
    Deleted: bool,
    Uploader: Option<int>,
    Timestamp: FileTime,
    FileSizeMB: Megabytes)
  {
    /** The owner's key, read through the `Uploader` reference, which must be present. */
    function BakaUploaderId(): (id: int)
      requires Uploader.Some?
      ensures Uploader == Some(id)
    {
      Uploader.value
    }

    function Epoch(): (s: string)
      ensures IsDigits(s) && ParseDecimal(s) == Timestamp
    {
      EpochOf(Timestamp)
    }

    /** The MIME type of the file, looked up from its extension in the
        given table (the MIME lookup is a collaborator of this model). */
    function ContentType(getMimeType: string -> string): (t: string)
      ensures t == getMimeType(Extension)
    {
      getMimeType(Extension)
    }
  }

  /** A shortened link, with the same ownership and derived fields as a file. */
  datatype BakaLink = BakaLink(
    Destination: string,
    UploadedFromIp: string,
    Deleted: bool,
    ExternalId: string,
    Id: int,
    Uploader: Option<int>,
    Timestamp: FileTime)
  {
    function BakaUploaderId(): (id: int)
      requires Uploader.Some?
      ensures Uploader == Some(id)
    {
      Uploader.value
    }

    function Epoch(): (s: string)
      ensures IsDigits(s) && ParseDecimal(s) == Timestamp
    {
      EpochOf(Timestamp)
    }
  }

  /** A user account with the files and links it owns. */
  datatype BakaUser = BakaUser(
    Name: string,
    Username: string,
    Id: int,
    Files: set<BakaFile>,
    Links: set<BakaLink>,
    Timestamp: FileTime,
    Token: string,
    Email: string,
    InitialIp: Option<string>,
    UploadLimitMB: Megabytes,
    Deleted: bool,
    Disabled: bool,
    AccountType: string)
  {
    function Epoch(): (s: string)
      ensures IsDigits(s) && ParseDecimal(s) == Timestamp
    {
      EpochOf(Timestamp)
    }

    /** Every owned file and link refers back to this user as its uploader. */
    ghost predicate OwnsItems() {
      (forall f :: f in Files ==> f.Uploader == Some(Id)) &&
      (forall l :: l in Links ==> l.Uploader == Some(Id))
    }
  }

  /** `new BakaUser()`: every field at its default, and both owned
      collections empty. The empty string stands for the `null` strings and
      `0` for the unset key. */
  function NewBakaUser(): (u: BakaUser)
    ensures u.Files == {} && u.Links == {} && u.OwnsItems()
  {
    BakaUser("", "", 0, {}, {}, 0, "", "", None, 0, false, false, "")
  }

  // ---------------------------------------------------------------------
  // Properties of the derived getters
  // ---------------------------------------------------------------------

  /** The epoch string of a user, file or link carries its timestamp and
      nothing else: records agree on it exactly when their timestamps agree. */
  lemma EpochIsTimestamp(u: BakaUser, f: BakaFile, l: BakaLink)
    ensures ParseDecimal(u.Epoch()) == u.Timestamp
    ensures ParseDecimal(f.Epoch()) == f.Timestamp
    ensures ParseDecimal(l.Epoch()) == l.Timestamp
    ensures u.Epoch() == f.Epoch() <==> u.Timestamp == f.Timestamp
    ensures f.Epoch() == l.Epoch() <==> f.Timestamp == l.Timestamp
  {
  }

  /** The content type depends on the extension alone. */
  lemma ContentTypeFollowsExtension(f: BakaFile, g: BakaFile, getMimeType: string -> string)
    requires f.Extension == g.Extension
    ensures f.ContentType(getMimeType) == g.ContentType(getMimeType) == getMimeType(f.Extension)
  {
  }

  /** In a user that owns its items, every file and link reports that user's key as its uploader id. */
  lemma OwnedItemsReportOwner(u: BakaUser)
    requires u.OwnsItems()
    ensures forall f :: f in u.Files ==> f.Uploader.Some? && f.BakaUploaderId() == u.Id
    ensures forall l :: l in u.Links ==> l.Uploader.Some? && l.BakaUploaderId() == u.Id
  {
  }
}
