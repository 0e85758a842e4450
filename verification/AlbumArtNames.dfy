/**
 Names of cached album art: the file a URL is cached in, the id under which the user
 interface asks for it, and how that id is taken apart again.
 */
module AlbumArtNames {
  import opened FileHelper

  /** A URL with what Qt computes from it: the hexadecimal MD5 hash of its encoded form, the
      suffix of its file name, and whether it is a local file. */
  datatype Url = Url(text: string, hash: string, suffix: string, local: bool)

  /** A hash has only hexadecimal digits; a suffix starts after the last dot of a file name. */
  predicate WellFormed(u: Url) {
    && u.hash != "" && (forall i :: 0 <= i < |u.hash| ==> '0' <= u.hash[i] <= '9' || 'a' <= u.hash[i] <= 'f')
    && '.' !in u.suffix && '/' !in u.suffix
  }

  function CacheFileName(u: Url): string {
    if u.suffix == "" then u.hash else u.hash + "." + u.suffix
  }

  function ImageUrl(deviceId: string, u: Url): string {
    "image://albumart/" + deviceId + "/" + CacheFileName(u)
  }

  /** The parts of s between occurrences of c; there is always at least one. */
  function Split(s: string, c: char): (parts: seq<string>)
    ensures parts != []
  {
    if s == "" then [""]
    else
      var rest := Split(s[1..], c);
      if s[0] == c then [""] + rest else [[s[0]] + rest[0]] + rest[1..]
  }

  lemma {:induction false} SplitNone(s: string, c: char)
    requires c !in s
    ensures Split(s, c) == [s]
  {
    if s != "" {
      SplitNone(s[1..], c);
      assert s == [s[0]] + s[1..];
    }
  }

  lemma {:induction false} SplitFirst(a: string, b: string, c: char)
    requires c !in a
    ensures Split(a + [c] + b, c) == [a] + Split(b, c)
  {
    if a == "" {
      assert a + [c] + b == [c] + b;
      assert ([c] + b)[1..] == b;
    } else {
      SplitFirst(a[1..], b, c);
      assert (a + [c] + b)[1..] == a[1..] + [c] + b;
      assert a == [a[0]] + a[1..];
    }
  }

  lemma {:induction false} SplitMore(a: string, b: string, c: char)
    requires c in a
    ensures |Split(a + [c] + b, c)| > 2
  {
    var s := a + [c] + b;
    assert s[0] == a[0] && s[1..] == a[1..] + [c] + b;
    if c in a[1..] {
      SplitMore(a[1..], b, c);
    } else {
      SplitFirst(a[1..], b, c);
      assert a[0] == c;
    }
  }

  /** What the image provider makes of an id: the device and the cached file, or nothing. */
  datatype Parsed = Bad | Image(device: string, file: string, hash: string)

  function ParseId(id: string): Parsed {
    var parts := Split(id, '/');
    if |parts| != 2 then Bad else Image(parts[0], parts[1], BaseName(parts[1]))
  }

  lemma {:induction false} SplitTwo(id: string, c: char)
    ensures |Split(id, c)| == 2 ==>
      && c !in Split(id, c)[0] && c !in Split(id, c)[1]
      && id == Split(id, c)[0] + [c] + Split(id, c)[1]
    ensures |Split(id, c)| == 1 ==> c !in id && Split(id, c) == [id]
  {
    if id != "" {
      SplitTwo(id[1..], c);
      assert id == [id[0]] + id[1..];
      var rest := Split(id[1..], c);
      if id[0] != c && |rest| == 2 {
        assert [id[0]] + (rest[0] + [c] + rest[1]) == [id[0]] + rest[0] + [c] + rest[1];
      }
    }
  }

  /** An id is taken apart exactly if it is a device and a file with one slash between them, and then
      into these two. */
  lemma ParseIdMeans(id: string, device: string, file: string)
    requires '/' !in device && '/' !in file
    ensures id == device + "/" + file <==> ParseId(id) == Image(device, file, BaseName(file))
    ensures ParseId(id).Image? ==>
      && '/' !in ParseId(id).device && '/' !in ParseId(id).file
      && id == ParseId(id).device + "/" + ParseId(id).file
  {
    SplitTwo(id, '/');
    if id == device + "/" + file {
      SplitFirst(device, file, '/');
      SplitNone(file, '/');
    }
  }

  /** The cached file of a URL is found again by its hash: the base name of the file name. */
  lemma CacheNameBase(u: Url)
    requires WellFormed(u)
    ensures BaseName(CacheFileName(u)) == u.hash
    ensures '/' !in CacheFileName(u)
  {
    assert '.' !in u.hash && '/' !in u.hash;
    if u.suffix == "" {
      assert u.hash + "" == u.hash;
      FirstDotOf(u.hash, "");
    } else {
      assert u.hash + "." + u.suffix == u.hash + ("." + u.suffix);
      FirstDotOf(u.hash, "." + u.suffix);
    }
  }

  /** The suffix is what follows the first dot of the file name, so both parts can be read back, and
      distinct pairs of a hash and a suffix have distinct files. */
  lemma CacheNameSuffix(u: Url)
    requires WellFormed(u)
    ensures CompleteSuffix(CacheFileName(u)) == u.suffix
    ensures '.' in CacheFileName(u) <==> u.suffix != ""
  {
    CacheNameBase(u);
    if u.suffix == "" {
      FirstDotOf(u.hash, "");
    } else {
      assert CacheFileName(u) == u.hash + ("." + u.suffix);
      FirstDotOf(u.hash, "." + u.suffix);
      assert CacheFileName(u)[|u.hash| + 1..] == u.suffix;
      assert CacheFileName(u)[|u.hash|] == '.';
    }
  }

  /** Characters that QUrl takes over into a URL and out of it as they are. */
  predicate Unreserved(c: char) {
    '0' <= c <= '9' || 'a' <= c <= 'z' || 'A' <= c <= 'Z' || c == '-' || c == '.' || c == '_' || c == '~'
  }

  /** Nothing in the URL of the image needs escaping or is read as an escape. */
  predicate Plain(deviceId: string, u: Url) {
    && (forall i :: 0 <= i < |deviceId| ==> Unreserved(deviceId[i]) || deviceId[i] == '/')
    && (forall i :: 0 <= i < |u.suffix| ==> Unreserved(u.suffix[i]))
  }

  /** The path of an image URL then has no other characters either. */
  lemma PlainPath(deviceId: string, u: Url)
    requires WellFormed(u) && Plain(deviceId, u)
    ensures var id := deviceId + "/" + CacheFileName(u);
      forall i :: 0 <= i < |id| ==> Unreserved(id[i]) || id[i] == '/'
  {
    assert forall i :: 0 <= i < |CacheFileName(u)| ==> Unreserved(CacheFileName(u)[i]);
  }

  /** Round trip: if neither the device id nor the suffix has a character that QUrl rewrites, the
      id in an image URL gives back exactly the device, the cached file and the hash, if and only
      if the device id has no slash. */
  lemma ImageUrlRoundTrip(deviceId: string, u: Url)
    requires WellFormed(u) && Plain(deviceId, u)
    ensures var prefix := "image://albumart/";
      && ImageUrl(deviceId, u)[..|prefix|] == prefix
      && (forall i :: |prefix| <= i < |ImageUrl(deviceId, u)| ==>
            Unreserved(ImageUrl(deviceId, u)[i]) || ImageUrl(deviceId, u)[i] == '/')
      && (ParseId(ImageUrl(deviceId, u)[|prefix|..]) == Image(deviceId, CacheFileName(u), u.hash)
          <==> '/' !in deviceId)
  {
    var id := deviceId + "/" + CacheFileName(u);
    var prefix := "image://albumart/";
    assert ImageUrl(deviceId, u) == prefix + id;
    PlainPath(deviceId, u);
    CacheNameBase(u);
    if '/' in deviceId {
      SplitMore(deviceId, CacheFileName(u), '/');
    } else {
      SplitFirst(deviceId, CacheFileName(u), '/');
      SplitNone(CacheFileName(u), '/');
    }
  }
}
