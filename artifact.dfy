/** Where the produced PDF is stored and how it is referenced: the storage
    path under the owner's uid, the download URL built from the bucket, the
    percent-encoded path and the download token, and the timeline entry. */
module Artifact {
  import opened Common
  import opened Strings
  import UriComponent
  import Upload

  /** The bucket the app is initialised with. */
  const Bucket := "futureyou-4124d.firebasestorage.app"

  const DownloadHost := "https://firebasestorage.googleapis.com/v0/b/"
  const TokenQuery := "alt=media&token="

  /** `medical_${Date.now()}.pdf` */
  function FileName(now: nat): string {
    "medical_" + Decimal(now) + ".pdf"
  }

  /** What separates the uid from the timestamp in a storage path. */
  const OutputsPrefix := "/medical_outputs/medical_"

  /** `users/${uid}/medical_outputs/${fileName}` */
  function StoragePath(uid: string, now: nat): string {
    "users/" + uid + "/medical_outputs/" + FileName(now)
  }

  /** The download URL for object `path` of `bucket` with download token `token`. */
  function DownloadUrl(bucket: string, path: string, token: string): string {
    DownloadHost + (bucket + ("/o/" + (UriComponent.Encode(path) + ("?" + (TokenQuery + token)))))
  }

  /** What a download URL designates. */
  datatype Location = Location(bucket: string, path: string, token: string)

  /** Reads a download URL: the host, then the bucket up to the first `/`,
      then `o/`, the encoded object name up to the first `?`,
      `alt=media&token=` and the token; the object name is percent-decoded. */
  function ParseDownloadUrl(url: string): Option<Location> {
    if StartsWith(url, DownloadHost) then ParseBucket(url[|DownloadHost|..]) else None
  }

  function ParseBucket(rest: string): Option<Location> {
    var b := IndexOf(rest, '/');
    if b < |rest| && StartsWith(rest[b + 1..], "o/") then ParseObject(rest[..b], rest[b + 1..][2..]) else None
  }

  function ParseObject(bucket: string, rest: string): Option<Location> {
    var q := IndexOf(rest, '?');
    if q < |rest| && StartsWith(rest[q + 1..], TokenQuery) then
      match UriComponent.Decode(rest[..q])
      case None => None
      case Some(path) => Some(Location(bucket, path, rest[q + 1..][|TokenQuery|..]))
    else None
  }

  /** No `?` in an encoded path: encoding keeps only unreserved characters and `%`. */
  lemma EncodedHasNoQuery(path: string)
    ensures '?' !in UriComponent.Encode(path)
  {
    var enc := UriComponent.Encode(path);
    forall i | 0 <= i < |enc| ensures enc[i] != '?' {
      assert UriComponent.Unescaped(enc[i]) || enc[i] == '%';
    }
  }

  lemma ParseObjectOfEncoded(bucket: string, path: string, token: string)
    ensures ParseObject(bucket, UriComponent.Encode(path) + ['?'] + (TokenQuery + token)) == Some(Location(bucket, path, token))
  {
    var enc := UriComponent.Encode(path);
    EncodedHasNoQuery(path);
    IndexOfSplit(enc, '?', TokenQuery + token);
    DropPrefix(TokenQuery, token);
    UriComponent.DecodeEncode(path);
  }

  lemma ParseBucketOf(bucket: string, objectPart: string)
    requires '/' !in bucket
    ensures ParseBucket(bucket + ['/'] + ("o/" + objectPart)) == ParseObject(bucket, objectPart)
  {
    IndexOfSplit(bucket, '/', "o/" + objectPart);
    DropPrefix("o/", objectPart);
  }

  /** The download URL designates exactly the stored object and carries
      exactly the token stored in its metadata, for every object path and
      token, as long as the bucket name has no `/`. */
  lemma DownloadUrlRoundTrip(bucket: string, path: string, token: string)
    requires '/' !in bucket
    ensures ParseDownloadUrl(DownloadUrl(bucket, path, token)) == Some(Location(bucket, path, token))
  {
    var objectPart := UriComponent.Encode(path) + ['?'] + (TokenQuery + token);
    var rest := bucket + ['/'] + ("o/" + objectPart);
    DownloadUrlShape(bucket, path, token);
    DropPrefix(DownloadHost, rest);
    ParseBucketOf(bucket, objectPart);
    ParseObjectOfEncoded(bucket, path, token);
  }

  /** The URL split at the `/` after the bucket and the `?` after the object name. */
  lemma DownloadUrlShape(bucket: string, path: string, token: string)
    ensures DownloadUrl(bucket, path, token)
            == DownloadHost + (bucket + ['/'] + ("o/" + (UriComponent.Encode(path) + ['?'] + (TokenQuery + token))))
  {
    var query := TokenQuery + token;
    var objectPart := UriComponent.Encode(path) + ['?'] + query;
    assert "/o/" == ['/'] + "o/" && "?" == ['?'];
    Regroup(UriComponent.Encode(path), ['?'], query);
    Regroup(['/'], "o/", objectPart);
    Regroup(bucket, ['/'], "o/" + objectPart);
  }

  /** The app's own bucket name has no `/`, so its URLs read back. */
  lemma BucketHasNoSlash()
    ensures '/' !in Bucket
  {
    assert forall i :: 0 <= i < |Bucket| ==> Bucket[i] != '/';
  }

  /** Every URL the app builds for its own bucket reads back to the stored object and its token. */
  lemma AppDownloadUrlRoundTrip(path: string, token: string)
    ensures ParseDownloadUrl(DownloadUrl(Bucket, path, token)) == Some(Location(Bucket, path, token))
  {
    BucketHasNoSlash();
    DownloadUrlRoundTrip(Bucket, path, token);
  }

  /** Storage paths are namespaced by owner and time: two owners or two
      timestamps never share a path, whatever characters the uids hold,
      because the timestamp is the run of digits after the last `_`. */
  lemma StoragePathInjective(uid1: string, now1: nat, uid2: string, now2: nat)
    requires StoragePath(uid1, now1) == StoragePath(uid2, now2)
    ensures uid1 == uid2 && now1 == now2
  {
    var a1, a2 := "users/" + uid1 + OutputsPrefix, "users/" + uid2 + OutputsPrefix;
    var d1, d2 := Decimal(now1), Decimal(now2);
    StoragePathShape(uid1, now1);
    StoragePathShape(uid2, now2);
    CancelSuffix(a1 + d1, a2 + d2, ".pdf");
    DigitsSuffix(a1, d1, a2, d2);
    CancelSuffix("users/" + uid1, "users/" + uid2, OutputsPrefix);
    CancelPrefix("users/", uid1, uid2);
    DecimalInjective(now1, now2);
  }

  /** The path as the owner's prefix, the timestamp digits and the extension. */
  lemma StoragePathShape(uid: string, now: nat)
    ensures StoragePath(uid, now) == "users/" + uid + OutputsPrefix + Decimal(now) + ".pdf"
  {
  }

  lemma FileNameInjective(now1: nat, now2: nat)
    requires FileName(now1) == FileName(now2)
    ensures now1 == now2
  {
    var d1, d2 := Decimal(now1), Decimal(now2);
    assert FileName(now1) == "medical_" + (d1 + ".pdf");
    assert FileName(now2) == "medical_" + (d2 + ".pdf");
    CancelPrefix("medical_", d1 + ".pdf", d2 + ".pdf");
    assert d1 == (d1 + ".pdf")[..|d1|];
    assert d2 == (d2 + ".pdf")[..|d2|];
    DecimalInjective(now1, now2);
  }

  /** `{ filename, mime, bytes }`: what the timeline keeps of an upload. */
  datatype FileSummary = FileSummary(filename: string, mime: string, bytes: nat)

  /** `files.map(f => ({ filename: f.filename, mime: f.mime, bytes: f.buffer.length }))` */
  function Summaries(files: seq<Upload.UploadedFile>): (r: seq<FileSummary>)
    ensures |r| == |files|
    ensures forall i :: 0 <= i < |files| ==>
              r[i] == FileSummary(files[i].filename, files[i].mime, |files[i].buffer|)
  {
    if files == [] then []
    else [FileSummary(files[0].filename, files[0].mime, |files[0].buffer|)] + Summaries(files[1..])
  }

  /** `sourceDocument` of a timeline entry. */
  datatype SourceDocument = SourceDocument(
    fileUrl: string, storagePath: string, fileName: string, token: string, originalFiles: seq<FileSummary>)

  /** The timeline entry; its `createdAt` is the store's own server timestamp
      and is not part of the model. */
  datatype TimelineEntry = TimelineEntry(title: string, eventType: string, aiProcessed: bool, source: SourceDocument)
}
