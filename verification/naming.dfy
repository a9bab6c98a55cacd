/** Output file names and frame-folder names: decimal formatting, zero padding and path joining. */
module Naming {

  predicate IsDigit(c: char) {
    '0' <= c <= '9'
  }

  function DigitChar(d: nat): (c: char)
    requires d < 10
    ensures IsDigit(c) && c as int - '0' as int == d
  {
    ('0' as int + d) as char
  }

  function DigitValue(c: char): nat {
    if IsDigit(c) then c as int - '0' as int else 0
  }

  /** Python's `'{}'.format(n)` for a non-negative integer: its decimal digits, most significant first. */
  function Decimal(n: nat): (s: string)
    ensures |s| >= 1
    ensures forall i :: 0 <= i < |s| ==> IsDigit(s[i])
  {
    if n < 10 then [DigitChar(n)] else Decimal(n / 10) + [DigitChar(n % 10)]
  }

  /** The value of a string of decimal digits (0 for the empty string). */
  function ParseDecimal(s: string): nat {
    if s == [] then 0 else ParseDecimal(s[..|s| - 1]) * 10 + DigitValue(s[|s| - 1])
  }

  function Pow10(k: nat): nat {
    if k == 0 then 1 else 10 * Pow10(k - 1)
  }

  /** Reading back the digits of n gives n. */
  lemma {:induction false} ParseDecimalOfDecimal(n: nat)
    ensures ParseDecimal(Decimal(n)) == n
  {
    var s := Decimal(n);
    if n >= 10 {
      assert s[..|s| - 1] == Decimal(n / 10);
      ParseDecimalOfDecimal(n / 10);
    }
  }

  /** Distinct numbers are formatted differently. */
  lemma DecimalInjective(m: nat, n: nat)
    ensures Decimal(m) == Decimal(n) ==> m == n
  {
    ParseDecimalOfDecimal(m);
    ParseDecimalOfDecimal(n);
  }

  /** n has at most k digits exactly when n < 10^k. */
  lemma {:induction false} DecimalLength(n: nat, k: nat)
    requires k >= 1
    ensures |Decimal(n)| <= k <==> n < Pow10(k)
  {
    if n < 10 {
      Pow10AtLeast10(k);
    } else if k == 1 {
      assert |Decimal(n)| == |Decimal(n / 10)| + 1;
    } else {
      DecimalLength(n / 10, k - 1);
      assert |Decimal(n)| == |Decimal(n / 10)| + 1;
      assert n / 10 < Pow10(k - 1) <==> n < 10 * Pow10(k - 1);
    }
  }

  lemma {:induction false} Pow10AtLeast10(k: nat)
    requires k >= 1
    ensures Pow10(k) >= 10
  {
    if k > 1 {
      Pow10AtLeast10(k - 1);
    }
  }

  function Zeros(k: nat): (z: string)
    ensures |z| == k
  {
    seq(k, _ => '0')
  }

  /** Python's `'{:06d}'.format(n)` for a non-negative n: the digits of n, left-padded with '0' to width six. */
  function ZeroPad6(n: nat): string {
    var d := Decimal(n);
    if |d| < 6 then Zeros(6 - |d|) + d else d
  }

  /** Leading zeros do not change the value of a digit string. */
  lemma {:induction false} ParseDecimalLeadingZeros(k: nat, d: string)
    ensures ParseDecimal(Zeros(k) + d) == ParseDecimal(d)
    decreases |d|
  {
    if d == [] {
      ParseDecimalOfZeros(k);
      assert Zeros(k) + d == Zeros(k);
    } else {
      var s := Zeros(k) + d;
      assert s[..|s| - 1] == Zeros(k) + d[..|d| - 1];
      ParseDecimalLeadingZeros(k, d[..|d| - 1]);
    }
  }

  lemma {:induction false} ParseDecimalOfZeros(k: nat)
    ensures ParseDecimal(Zeros(k)) == 0
  {
    if k > 0 {
      assert Zeros(k)[..k - 1] == Zeros(k - 1);
      ParseDecimalOfZeros(k - 1);
    }
  }

  /** The padded field is six digits wide exactly for the numbers below 10^6, and longer (the plain digits) above. */
  lemma ZeroPad6Width(n: nat)
    ensures |ZeroPad6(n)| == 6 <==> n < 1000000
    ensures n >= 1000000 ==> ZeroPad6(n) == Decimal(n)
    ensures forall i :: 0 <= i < |ZeroPad6(n)| ==> IsDigit(ZeroPad6(n)[i])
  {
    DecimalLength(n, 6);
    assert Pow10(6) == 1000000;
  }

  /** The padded field reads back as n. */
  lemma ZeroPad6RoundTrip(n: nat)
    ensures ParseDecimal(ZeroPad6(n)) == n
  {
    var d := Decimal(n);
    ParseDecimalOfDecimal(n);
    if |d| < 6 {
      ParseDecimalLeadingZeros(6 - |d|, d);
    }
  }

  /** Whether os.path.join puts a '/' between a and a relative component: a is non-empty and does not
      already end in one. */
  predicate NeedsSep(a: string) {
    a != [] && a[|a| - 1] != '/'
  }

  /** Python's `os.path.join(a, b)` on POSIX. An absolute b replaces a. A relative b keeps a as the prefix
      and itself as the suffix, and exactly one character, a '/', is added between them when a is non-empty
      and does not already end in '/'. */
  function Join(a: string, b: string): (p: string)
    ensures |b| > 0 && b[0] == '/' ==> p == b
    ensures !(|b| > 0 && b[0] == '/') ==>
      && |p| == |a| + |b| + (if NeedsSep(a) then 1 else 0)
      && p[..|a|] == a && p[|p| - |b|..] == b
      && (NeedsSep(a) ==> p[|a|] == '/')
  {
    if |b| > 0 && b[0] == '/' then b
    else if a == [] || a[|a| - 1] == '/' then a + b
    else a + "/" + b
  }

  /** `'data{}.bin'.format(n)` */
  function DataFileName(n: nat): (f: string)
    ensures |f| >= 5 && f[0] == 'd' && f[|f| - 4..] == ".bin"
  {
    "data" + Decimal(n) + ".bin"
  }

  /** `'meta{}.bin'.format(n)` */
  function MetaFileName(n: nat): (f: string)
    ensures |f| >= 5 && f[0] == 'm' && f[|f| - 4..] == ".bin"
  {
    "meta" + Decimal(n) + ".bin"
  }

  /** A file name joined to a folder starts at an offset fixed by the folder alone, and the joined path ends
      in the name's four-character extension. */
  lemma JoinSuffix(a: string, b: string)
    requires |b| >= 4 && b[0] != '/'
    ensures var p := Join(a, b);
      && |p| - |b| == |a| + (if NeedsSep(a) then 1 else 0)
      && p[|p| - |b|] == b[0] && p[|p| - 4..] == b[|b| - 4..]
  {
    var p := Join(a, b);
    assert p[|p| - |b|..][0] == b[0];
    assert p[|p| - 4..] == p[|p| - |b|..][|b| - 4..];
  }

  /** Two relative `.bin` names that start differently stay different once joined to the same folder, and
      both joined paths keep the `.bin` extension. */
  lemma JoinedBinNames(a: string, b: string, c: string)
    requires |b| >= 4 && b[0] != '/' && b[|b| - 4..] == ".bin"
    requires |c| >= 4 && c[0] != '/' && c[|c| - 4..] == ".bin"
    requires b[0] != c[0]
    ensures Join(a, b) != Join(a, c)
    ensures |Join(a, b)| >= 4 && Join(a, b)[|Join(a, b)| - 4..] == ".bin"
    ensures |Join(a, c)| >= 4 && Join(a, c)[|Join(a, c)| - 4..] == ".bin"
  {
    JoinSuffix(a, b);
    JoinSuffix(a, c);
  }

  /** The data and meta paths of chunk `chunkNo` inside `outputFolder`; the two never coincide. */
  function InitializeFilenames(outputFolder: string, chunkNo: nat): (paths: (string, string))
    ensures paths.0 != paths.1
    ensures |paths.0| >= 4 && paths.0[|paths.0| - 4..] == ".bin"
    ensures |paths.1| >= 4 && paths.1[|paths.1| - 4..] == ".bin"
  {
    var data, meta := DataFileName(chunkNo), MetaFileName(chunkNo);
    JoinedBinNames(outputFolder, data, meta);
    (Join(outputFolder, data), Join(outputFolder, meta))
  }

  /** Within one output folder, every chunk number owns its own data and meta path: distinct numbers give
      distinct paths, and no data path is ever another chunk's meta path. */
  lemma InitializeFilenamesInjective(outputFolder: string, m: nat, n: nat)
    ensures InitializeFilenames(outputFolder, m).0 == InitializeFilenames(outputFolder, n).0 ==> m == n
    ensures InitializeFilenames(outputFolder, m).1 == InitializeFilenames(outputFolder, n).1 ==> m == n
    ensures InitializeFilenames(outputFolder, m).0 != InitializeFilenames(outputFolder, n).1
  {
    var k := |outputFolder| + if NeedsSep(outputFolder) then 1 else 0;
    var dm, dn := InitializeFilenames(outputFolder, m).0, InitializeFilenames(outputFolder, n).0;
    var mm, mn := InitializeFilenames(outputFolder, m).1, InitializeFilenames(outputFolder, n).1;
    assert dm[k] == 'd' && mn[k] == 'm';
    if dm == dn {
      assert DataFileName(m) == DataFileName(n);
      assert Decimal(m) == DataFileName(m)[4..|DataFileName(m)| - 4];
      assert Decimal(n) == DataFileName(n)[4..|DataFileName(n)| - 4];
      DecimalInjective(m, n);
    }
    if mm == mn {
      assert MetaFileName(m) == MetaFileName(n);
      assert Decimal(m) == MetaFileName(m)[4..|MetaFileName(m)| - 4];
      assert Decimal(n) == MetaFileName(n)[4..|MetaFileName(n)| - 4];
      DecimalInjective(m, n);
    }
  }

  /** The folder holding an entry's frames. With a video directory (a non-empty `videoPath`) it is that
      directory joined with the video id; otherwise `framesPath/label/videoId_SSSSSS_EEEEEE`. */
  function CreateFolderName(videoId: string, videoPath: string, framesPath: string, labelName: string,
                            startT: nat, endT: nat): string
  {
    if videoPath != "" then Join(videoPath, videoId)
    else Join(Join(framesPath, labelName), videoId) + "_" + ZeroPad6(startT) + "_" + ZeroPad6(endT)
  }

  /** The start and end markers read back from the last fourteen characters of a frames-mode folder name. */
  function FolderTimes(folder: string): (nat, nat)
    requires |folder| >= 14
  {
    (ParseDecimal(folder[|folder| - 13..|folder| - 7]), ParseDecimal(folder[|folder| - 6..]))
  }

  /** In frames mode the folder is the joined `framesPath/label/videoId` followed by `_`, the six-digit start,
      `_` and the six-digit end; when both markers are below 10^6 they read back from the name. */
  lemma FolderNameFramesMode(videoId: string, framesPath: string, labelName: string, startT: nat, endT: nat)
    requires startT < 1000000 && endT < 1000000
    ensures var f := CreateFolderName(videoId, "", framesPath, labelName, startT, endT);
      && |f| >= 14
      && f[..|f| - 14] == Join(Join(framesPath, labelName), videoId)
      && f[|f| - 14] == '_' && f[|f| - 7] == '_'
      && (forall i :: |f| - 13 <= i < |f| && i != |f| - 7 ==> IsDigit(f[i]))
      && FolderTimes(f) == (startT, endT)
  {
    var f := CreateFolderName(videoId, "", framesPath, labelName, startT, endT);
    var base := Join(Join(framesPath, labelName), videoId);
    ZeroPad6Width(startT);
    ZeroPad6Width(endT);
    ZeroPad6RoundTrip(startT);
    ZeroPad6RoundTrip(endT);
    assert f == base + "_" + ZeroPad6(startT) + "_" + ZeroPad6(endT);
    assert f[|f| - 13..|f| - 7] == ZeroPad6(startT);
    assert f[|f| - 6..] == ZeroPad6(endT);
    forall i | |f| - 13 <= i < |f| && i != |f| - 7
      ensures IsDigit(f[i])
    {
      if i < |f| - 7 {
        assert f[i] == ZeroPad6(startT)[i - (|f| - 13)];
      } else {
        assert f[i] == ZeroPad6(endT)[i - (|f| - 6)];
      }
    }
  }

  /** In video mode the folder depends on the video directory and the id alone, not on the frames path, the
      label or the markers. It ends in the id; a relative id follows the video directory, and an absolute
      id is the folder itself. */
  lemma FolderNameVideoMode(videoId: string, videoPath: string, framesPath: string, labelName: string,
                            startT: nat, endT: nat, framesPath': string, labelName': string,
                            startT': nat, endT': nat)
    requires videoPath != ""
    ensures var f := CreateFolderName(videoId, videoPath, framesPath, labelName, startT, endT);
      && f == CreateFolderName(videoId, videoPath, framesPath', labelName', startT', endT')
      && |f| >= |videoId| && f[|f| - |videoId|..] == videoId
      && (|videoId| > 0 && videoId[0] == '/' ==> f == videoId)
      && (!(|videoId| > 0 && videoId[0] == '/') ==> |f| >= |videoPath| && f[..|videoPath|] == videoPath)
  {
  }
}
