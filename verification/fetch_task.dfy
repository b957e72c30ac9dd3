/** The pure logic of `BitmapFetchTask`: the argument guard of `doInBackground`,
    the space escaping applied before `new URL`, the identity case of the scaling,
    the result-to-callback dispatch of `onPostExecute`, and the loop of
    `FlushedInputStream.skip` over an abstract byte stream. Networking and image
    decoding are an oracle from URL to `Connection`. */
module FetchTask {
  import opened Platform

  /** A decoded raster image; only its dimensions are observed. */
  datatype Bitmap = Bitmap(width: nat, height: nat)

  /** What opening, connecting to and decoding one URL produces: a decoded image
      (`BitmapFactory.decodeStream` may itself give null), or one of the two
      exceptions `fetchBitmap` catches. */
  datatype Connection = Decoded(bitmap: Option<Bitmap>) | MalformedUrl | IoFailure

  /** The two callbacks of `IBitmapFetchListener`. */
  datatype FetchOutcome = Loaded(bitmap: Option<Bitmap>) | LoadFailed

  /** What `doInBackground` leaves behind: its return value, the URL it handed to
      `new URL` (none when the guard stopped it) and the `mFetchedBitmap` field. */
  datatype Background = Background(result: bool, requested: Option<string>, fetched: Option<Bitmap>)

  /** The value `mScale` starts with. */
  const DefaultScale: real := 1.0

  /** The number of spaces in `s`. */
  function SpaceCount(s: string): nat {
    if |s| == 0 then 0 else (if s[0] == ' ' then 1 else 0) + SpaceCount(s[1..])
  }

  /** `url.replace(" ", "%20")`: every space becomes the three characters "%20". */
  function EscapeSpaces(url: string): (r: string)
    ensures ' ' !in r
    ensures |r| == |url| + 2 * SpaceCount(url)
    ensures ' ' !in url ==> r == url
  {
    if |url| == 0 then ""
    else (if url[0] == ' ' then "%20" else [url[0]]) + EscapeSpaces(url[1..])
  }

  /** Escaping works character by character: a space becomes "%20" and every
      other character, '%' included, is kept as it is. */
  lemma EscapeOne(c: char)
    ensures EscapeSpaces([c]) == if c == ' ' then "%20" else [c]
  {
    assert [c][1..] == [];
  }

  /** Escaping a concatenation escapes each part, so together with `EscapeOne`
      the characters of any URL keep their order and only spaces are rewritten. */
  lemma {:induction false} EscapeConcat(a: string, b: string)
    ensures EscapeSpaces(a + b) == EscapeSpaces(a) + EscapeSpaces(b)
    decreases |a|
  {
    if |a| == 0 {
      assert a + b == b;
    } else {
      assert (a + b)[0] == a[0];
      assert (a + b)[1..] == a[1..] + b;
      EscapeConcat(a[1..], b);
    }
  }

  /** Percent-decoding restricted to "%20", the way a server reads the escaped URL back. */
  function UnescapeSpaces(s: string): string
    decreases |s|
  {
    if |s| == 0 then ""
    else if |s| >= 3 && s[..3] == "%20" then " " + UnescapeSpaces(s[3..])
    else [s[0]] + UnescapeSpaces(s[1..])
  }

  /** Decoding turns a leading "%20" back into a space. */
  lemma UnescapeSpaceHead(rest: string)
    ensures UnescapeSpaces("%20" + rest) == " " + UnescapeSpaces(rest)
  {
    var e := "%20" + rest;
    assert e[..3] == "%20";
    assert e[3..] == rest;
  }

  /** Decoding keeps a leading character other than '%'. */
  lemma UnescapeOtherHead(c: char, rest: string)
    requires c != '%'
    ensures UnescapeSpaces([c] + rest) == [c] + UnescapeSpaces(rest)
  {
    var e := [c] + rest;
    assert |e| >= 3 ==> e[..3][0] == c;
    assert e[1..] == rest;
  }

  /** Escaping loses nothing: a URL without a literal '%' is recovered by decoding. */
  lemma {:induction false} UnescapeEscape(url: string)
    requires '%' !in url
    ensures UnescapeSpaces(EscapeSpaces(url)) == url
  {
    if |url| > 0 {
      var tail := url[1..];
      assert '%' !in tail by {
        forall k | 0 <= k < |tail| ensures tail[k] != '%' {
          assert tail[k] == url[k + 1];
        }
      }
      UnescapeEscape(tail);
      assert url == [url[0]] + tail;
      if url[0] == ' ' {
        assert EscapeSpaces(url) == "%20" + EscapeSpaces(tail);
        UnescapeSpaceHead(EscapeSpaces(tail));
      } else {
        assert EscapeSpaces(url) == [url[0]] + EscapeSpaces(tail);
        UnescapeOtherHead(url[0], EscapeSpaces(tail));
      }
    }
  }

  /** `fetchBitmap`: the escaped URL is the only one the network sees, and the two
      caught exceptions turn into an absent image instead of escaping. */
  function FetchBitmap(url: string, net: string -> Connection): (r: Option<Bitmap>)
    ensures net(EscapeSpaces(url)).MalformedUrl? ==> r.None?
    ensures net(EscapeSpaces(url)).IoFailure? ==> r.None?
    ensures r.Some? <==> net(EscapeSpaces(url)).Decoded? && net(EscapeSpaces(url)).bitmap.Some?
    ensures r.Some? ==> net(EscapeSpaces(url)) == Decoded(r)
  {
    match net(EscapeSpaces(url))
    case Decoded(b) => b
    case MalformedUrl => None
    case IoFailure => None
  }

  /** `scaleBitmap`: an absent image stays absent, the default scale keeps the
      image unchanged, and any other scale hands it to `Bitmap.createScaledBitmap`
      (the `resize` oracle). */
  function ScaleBitmap(bitmap: Option<Bitmap>, scale: real, resize: Bitmap -> Bitmap): (r: Option<Bitmap>)
    ensures bitmap.None? ==> r.None?
    ensures scale == DefaultScale ==> r == bitmap
    ensures r.Some? <==> bitmap.Some?
  {
    if bitmap.None? || scale == DefaultScale then bitmap
    else Some(resize(bitmap.value))
  }

  /** `doInBackground(args...)`. */
  function DoInBackground(args: seq<Option<string>>, scale: real,
                          net: string -> Connection, resize: Bitmap -> Bitmap): (r: Background)
    ensures |args| == 0 || args[0].None? ==> r == Background(false, None, None)
    ensures r.result <==> r.fetched.Some?
    ensures r.requested.Some? ==> ' ' !in r.requested.value
    ensures |args| > 0 && args[0].Some? ==>
      && r.requested == Some(EscapeSpaces(args[0].value))
      && (r.result <==> net(r.requested.value).Decoded? && net(r.requested.value).bitmap.Some?)
      && (scale == DefaultScale ==> r.fetched == FetchBitmap(args[0].value, net))
  {
    if |args| < 1 || args[0].None? then Background(false, None, None)
    else
      var fetched := ScaleBitmap(FetchBitmap(args[0].value, net), scale, resize);
      Background(fetched.Some?, Some(EscapeSpaces(args[0].value)), fetched)
  }

  /** `onPostExecute(result)`: nothing without a listener, otherwise exactly one of
      the two callbacks, chosen by the result. */
  function OnPostExecute(hasListener: bool, result: bool, fetched: Option<Bitmap>): (r: Option<FetchOutcome>)
    ensures !hasListener ==> r.None?
    ensures hasListener ==> r.Some?
    ensures r.Some? ==> (r.value.Loaded? <==> result)
    ensures r.Some? && r.value.Loaded? ==> r.value.bitmap == fetched
  {
    if !hasListener then None
    else if result then Some(Loaded(fetched))
    else Some(LoadFailed)
  }

  /** The whole task as the listener sees it: `doInBackground` followed by `onPostExecute`. */
  function Run(hasListener: bool, url: Option<string>, scale: real,
               net: string -> Connection, resize: Bitmap -> Bitmap): Option<FetchOutcome>
  {
    var bg := DoInBackground([url], scale, net, resize);
    OnPostExecute(hasListener, bg.result, bg.fetched)
  }

  /** A task with a listener reports exactly once; `imageLoaded` always carries an
      image, and it is chosen exactly when the network decoded one. */
  lemma RunReportsOnce(url: Option<string>, scale: real, net: string -> Connection, resize: Bitmap -> Bitmap)
    ensures Run(true, url, scale, net, resize).Some?
    ensures Run(true, url, scale, net, resize).value.Loaded? ==>
              Run(true, url, scale, net, resize).value.bitmap.Some?
    ensures Run(true, url, scale, net, resize).value.Loaded? <==>
              url.Some? && FetchBitmap(url.value, net).Some?
    ensures url.None? ==> Run(true, url, scale, net, resize) == Some(LoadFailed)
  {
  }

  /** An abstract input stream: only the number of bytes not yet consumed matters. */
  datatype Stream = Stream(remaining: nat)

  /** The `InputStream.skip` contract the wrapped stream keeps: it skips between
      zero and the requested number of bytes, never past the end. */
  ghost predicate HonestSkip(innerSkip: (nat, nat) -> int) {
    forall left: nat, k: nat :: 0 <= innerSkip(left, k) <= k && innerSkip(left, k) <= left
  }

  /** `read()`: -1 at the end of the stream, otherwise one byte is consumed. */
  function Read(s: Stream): (r: (int, Stream))
    ensures r.0 < 0 <==> s.remaining == 0
    ensures r.0 >= 0 ==> r.1.remaining == s.remaining - 1
    ensures r.0 < 0 ==> r.1 == s
  {
    if s.remaining == 0 then (-1, s) else (0, Stream(s.remaining - 1))
  }

  /** `FlushedInputStream.skip(n)`. The wrapped stream's `skip` is the oracle
      `innerSkip(remaining, requested)`; when it reports zero, one byte is read
      instead, and the loop stops only at the end of the stream. */
  method Skip(s: Stream, n: int, innerSkip: (nat, nat) -> int) returns (total: int, after: Stream)
    requires HonestSkip(innerSkip)
    ensures n <= 0 ==> total == 0
    ensures n > 0 ==> 0 <= total <= n
    ensures n > 0 && total < n ==> after.remaining == 0
    ensures total == if n <= 0 then 0 else if n <= s.remaining then n else s.remaining
    ensures after.remaining == s.remaining - total
  {
    total := 0;
    after := s;
    while total < n
      invariant 0 <= total
      invariant n > 0 ==> total <= n
      invariant n <= 0 ==> total == 0
      invariant total <= s.remaining
      invariant after.remaining == s.remaining - total
      decreases n - total
    {
      var skipped := innerSkip(after.remaining, n - total);
      after := Stream(after.remaining - skipped);
      if skipped == 0 {
        var (b, next) := Read(after);
        after := next;
        if b < 0 {
          break;
        }
        skipped := 1;
      }
      total := total + skipped;
    }
  }
}
