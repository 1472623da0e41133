/**
  Derivation of the storage-layer object name and its retrieval URL at upload
  time: the name is the decimal rendering of `Date.now()`, an underscore, and
  the client's original file name; the URL is the public bucket prefix
  followed by that name.
 */
module Naming {
  import opened Wrappers

  predicate IsDigit(c: char) {
    '0' <= c <= '9'
  }

  predicate AllDigits(s: string) {
    forall i :: 0 <= i < |s| ==> IsDigit(s[i])
  }

  function DigitChar(d: nat): (c: char)
    requires d < 10
    ensures IsDigit(c)
  {
    ('0' as int + d) as char
  }

  function DigitValue(c: char): (d: nat)
    requires IsDigit(c)
    ensures d < 10
  {
    c as int - '0' as int
  }

  /** How a JavaScript template literal renders a non-negative integer number:
      base ten, no sign, no leading zeros. */
  function Decimal(n: nat): (s: string)
    ensures |s| > 0
    ensures AllDigits(s)
    ensures s[0] == '0' ==> s == "0"
    ensures n < 10 <==> |s| == 1
  {
    if n < 10 then [DigitChar(n)] else Decimal(n / 10) + [DigitChar(n % 10)]
  }

  /** Reads a string of decimal digits back as a number. */
  function ParseDecimal(s: string): nat
    requires AllDigits(s)
  {
    if |s| == 0 then 0 else 10 * ParseDecimal(s[..|s| - 1]) + DigitValue(s[|s| - 1])
  }

  lemma {:induction false} ParseDecimalInvertsDecimal(n: nat)
    ensures ParseDecimal(Decimal(n)) == n
  {
    var s := Decimal(n);
    if n >= 10 {
      assert s[..|s| - 1] == Decimal(n / 10);
      ParseDecimalInvertsDecimal(n / 10);
    }
  }

  /** Position of the first occurrence of `c` in `s`, or `|s|` when there is none. */
  function FirstIndexOf(s: string, c: char): (i: nat)
    ensures i <= |s|
    ensures i < |s| ==> s[i] == c
    ensures forall j :: 0 <= j < i ==> s[j] != c
  {
    if |s| == 0 then 0
    else if s[0] == c then 0
    else 1 + FirstIndexOf(s[1..], c)
  }

  /** The object name under which an upload is stored: `${Date.now()}_${originalname}`. */
  function StorageName(stamp: nat, originalName: string): string {
    Decimal(stamp) + "_" + originalName
  }

  /** Recovers the timestamp and the original file name from a storage name;
      None when the name does not start with digits followed by an underscore. */
  function SplitStorageName(name: string): Option<(nat, string)> {
    var i := FirstIndexOf(name, '_');
    if i == 0 || i == |name| || !AllDigits(name[..i]) then None
    else Some((ParseDecimal(name[..i]), name[i + 1..]))
  }

  lemma SplitStorageNameInverts(stamp: nat, originalName: string)
    ensures SplitStorageName(StorageName(stamp, originalName)) == Some((stamp, originalName))
  {
    var d := Decimal(stamp);
    var name := StorageName(stamp, originalName);
    assert forall j :: 0 <= j < |d| ==> name[j] == d[j] && name[j] != '_';
    assert name[|d|] == '_';
    assert FirstIndexOf(name, '_') == |d|;
    assert name[..|d|] == d;
    assert name[|d| + 1..] == originalName;
    ParseDecimalInvertsDecimal(stamp);
  }

  /** Distinct (timestamp, original name) pairs always give distinct storage
      names, even though a timestamp and a name are joined with no escaping. */
  lemma StorageNameInjective(stamp1: nat, name1: string, stamp2: nat, name2: string)
    ensures StorageName(stamp1, name1) == StorageName(stamp2, name2) <==> stamp1 == stamp2 && name1 == name2
  {
    SplitStorageNameInverts(stamp1, name1);
    SplitStorageNameInverts(stamp2, name2);
  }

  /** The public URL prefix of the storage bucket named `bucket`. */
  function UrlPrefix(bucket: string): string {
    "https://storage.googleapis.com/" + bucket + "/"
  }

  /** The retrieval URL recorded for the object `fileName`. */
  function FileURL(bucket: string, fileName: string): string {
    UrlPrefix(bucket) + fileName
  }

  /** Within one bucket the URL determines the object name: the name is what
      follows the bucket's prefix. */
  lemma FileURLInjective(bucket: string, name1: string, name2: string)
    ensures FileURL(bucket, name1) == FileURL(bucket, name2) <==> name1 == name2
  {
    var p := UrlPrefix(bucket);
    assert FileURL(bucket, name1)[|p|..] == name1;
    assert FileURL(bucket, name2)[|p|..] == name2;
  }
}
