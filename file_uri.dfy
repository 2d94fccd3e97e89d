/** The file location URI of the S3 storage: `s3://{region}/{bucket}/{filename}`,
    written by storeFile and taken apart by parseFileUri. The parser is the
    whole-string match of `s3://([^/]+)/([^/]+)/([^/]+)`, written out: the exact
    scheme prefix, then the rest cut at every '/' into exactly three non-empty
    pieces. */
module FileUri {
  import opened CloudTypes
  import opened JavaStrings

  const Scheme: string := "s3://"

  /** What one capture group `[^/]+` matches. */
  predicate IsSegment(s: string) {
    |s| > 0 && '/' !in s
  }

  /** The three groups of a parsed URI (the source's map with keys region,
      bucket and filename). */
  datatype FileLocation = FileLocation(region: string, bucket: string, filename: string)

  /** String.format("s3://%s/%s/%s", region, bucket, filename): the scheme,
      then the path of region, bucket and filename separated by '/'. */
  function FormatFileUri(region: string, bucket: string, filename: string): (u: string)
    ensures Scheme <= u
    ensures u[|Scheme|..] == region + "/" + (bucket + "/" + filename)
  {
    Scheme + region + "/" + bucket + "/" + filename
  }

  /** The language of the pattern, as a reference definition for the parser. */
  ghost predicate MatchesFileUriPattern(u: string) {
    exists r, b, f :: IsSegment(r) && IsSegment(b) && IsSegment(f) && u == FormatFileUri(r, b, f)
  }

  /** The pieces of `s` between '/' characters, empty pieces included. */
  function Split(s: string): (parts: seq<string>)
    ensures |parts| >= 1
  {
    if s == [] then [""]
    else
      var rest := Split(s[1..]);
      if s[0] == '/' then [""] + rest
      else [[s[0]] + rest[0]] + rest[1..]
  }

  /** The pieces put back together with '/' between them. */
  function Join(parts: seq<string>): (s: string)
    requires |parts| >= 1
    ensures |parts| == 1 ==> s == parts[0]
  {
    if |parts| == 1 then parts[0] else parts[0] + "/" + Join(parts[1..])
  }

  /** parseFileUri: a null or empty URI, and any URI that does not wholly match
      the pattern, is an IllegalArgumentException; otherwise the three groups. */
  function ParseFileUri(fileUri: Option<string>): (r: Result<FileLocation>)
    ensures IsNullOrEmpty(fileUri) ==> r == InvalidArgument
    ensures r.Ok? || r == InvalidArgument
    ensures r.Ok? ==> IsSegment(r.value.region) && IsSegment(r.value.bucket) && IsSegment(r.value.filename)
  {
    if IsNullOrEmpty(fileUri) then InvalidArgument
    else if !(Scheme <= fileUri.value) then InvalidArgument
    else
      var groups := Split(fileUri.value[|Scheme|..]);
      if |groups| == 3 && IsSegment(groups[0]) && IsSegment(groups[1]) && IsSegment(groups[2])
      then Ok(FileLocation(groups[0], groups[1], groups[2]))
      else InvalidArgument
  }

  /** Splitting undoes joining... */
  lemma {:induction false} JoinSplit(s: string)
    ensures Join(Split(s)) == s
  {
    if s != [] {
      var rest := Split(s[1..]);
      JoinSplit(s[1..]);
      if s[0] == '/' {
        assert Split(s) == [""] + rest;
        assert ([""] + rest)[1..] == rest;
      } else {
        var head := [s[0]] + rest[0];
        assert Split(s) == [head] + rest[1..];
        if |rest| == 1 {
          assert Join(rest) == rest[0];
        } else {
          assert Join(rest) == rest[0] + "/" + Join(rest[1..]);
          assert ([head] + rest[1..])[1..] == rest[1..];
        }
        assert s == [s[0]] + s[1..];
      }
    }
  }

  /** One step of Split on a string that starts with '/': an empty first piece. */
  lemma SplitConsSlash(t: string)
    ensures Split(['/'] + t) == [""] + Split(t)
  {
    assert (['/'] + t)[1..] == t;
  }

  /** One step of Split on a string that starts with another character: that
      character joins the first piece. */
  lemma SplitConsOther(c: char, t: string)
    requires c != '/'
    ensures Split([c] + t) == [[c] + Split(t)[0]] + Split(t)[1..]
  {
    assert ([c] + t)[1..] == t;
  }

  /** ...and a '/' in the input separates the pieces of what precedes it from
      the pieces of what follows it. */
  lemma {:induction false} SplitAtSlash(x: string, y: string)
    ensures Split(x + "/" + y) == Split(x) + Split(y)
  {
    if x == [] {
      assert x + "/" + y == ['/'] + y;
      SplitConsSlash(y);
    } else {
      var t := x[1..] + "/" + y;
      SplitAtSlash(x[1..], y);
      assert x + "/" + y == [x[0]] + t;
      assert x == [x[0]] + x[1..];
      if x[0] == '/' {
        SplitAtSlashStepSlash(x[1..], y);
      } else {
        SplitAtSlashStepOther(x[0], x[1..], y);
      }
    }
  }

  lemma SplitAtSlashStepSlash(x: string, y: string)
    requires Split(x + "/" + y) == Split(x) + Split(y)
    ensures Split(['/'] + (x + "/" + y)) == Split(['/'] + x) + Split(y)
  {
    SplitConsSlash(x + "/" + y);
    SplitConsSlash(x);
  }

  lemma SplitAtSlashStepOther(c: char, x: string, y: string)
    requires c != '/'
    requires Split(x + "/" + y) == Split(x) + Split(y)
    ensures Split([c] + (x + "/" + y)) == Split([c] + x) + Split(y)
  {
    SplitConsOther(c, x + "/" + y);
    SplitConsOther(c, x);
    ExtendFirstPiece([c], Split(x), Split(y));
  }

  /** Extending the first piece commutes with appending further pieces. */
  lemma ExtendFirstPiece(h: string, rest: seq<string>, tail: seq<string>)
    requires |rest| >= 1
    ensures [h + (rest + tail)[0]] + (rest + tail)[1..] == ([h + rest[0]] + rest[1..]) + tail
  {
    assert (rest + tail)[1..] == rest[1..] + tail;
  }

  /** A string without '/' is a single piece. */
  lemma {:induction false} SplitSlashFree(x: string)
    requires '/' !in x
    ensures Split(x) == [x]
  {
    if x != [] {
      assert '/' !in x[1..] by {
        forall i | 0 <= i < |x[1..]| ensures x[1..][i] != '/' {
          assert x[1..][i] == x[i + 1];
        }
      }
      SplitSlashFree(x[1..]);
      assert [x[0]] + x[1..] == x;
    }
  }

  /** A string with a '/' in it splits into at least two pieces. */
  lemma SplitWithSlash(s: string)
    requires '/' in s
    ensures |Split(s)| >= 2
  {
    var i :| 0 <= i < |s| && s[i] == '/';
    assert s == s[..i] + "/" + s[i + 1..];
    SplitAtSlash(s[..i], s[i + 1..]);
  }

  /** The '/'-separated pieces of a formatted URI's path are those of the
      region, then of the bucket, then of the filename. */
  lemma FormatFileUriPieces(region: string, bucket: string, filename: string)
    ensures var u := FormatFileUri(region, bucket, filename);
            Split(u[|Scheme|..]) == Split(region) + Split(bucket) + Split(filename)
  {
    SplitAtSlash(region, bucket + "/" + filename);
    SplitAtSlash(bucket, filename);
  }

  /** Every URI storeFile formats from three segments parses back to them. */
  lemma ParseFormatted(region: string, bucket: string, filename: string)
    requires IsSegment(region) && IsSegment(bucket) && IsSegment(filename)
    ensures ParseFileUri(Some(FormatFileUri(region, bucket, filename))) == Ok(FileLocation(region, bucket, filename))
  {
    var u := FormatFileUri(region, bucket, filename);
    assert Scheme <= u;
    assert u[|Scheme|..] == region + "/" + (bucket + "/" + filename);
    SplitAtSlash(region, bucket + "/" + filename);
    SplitAtSlash(bucket, filename);
    SplitSlashFree(region);
    SplitSlashFree(bucket);
    SplitSlashFree(filename);
  }

  /** Whatever parses is the formatting of the groups parsed out of it. */
  lemma ParsedIsFormatted(fileUri: Option<string>)
    requires ParseFileUri(fileUri).Ok?
    ensures var loc := ParseFileUri(fileUri).value;
            fileUri == Some(FormatFileUri(loc.region, loc.bucket, loc.filename))
  {
    var u := fileUri.value;
    var rest := u[|Scheme|..];
    var groups := Split(rest);
    JoinSplit(rest);
    assert Join(groups[2..]) == groups[2];
    assert Join(groups[1..]) == groups[1] + "/" + Join(groups[2..]) by {
      assert groups[1..][1..] == groups[2..];
    }
    assert Join(groups) == groups[0] + "/" + (groups[1] + "/" + groups[2]);
    assert u == Scheme + rest;
    assert ParseFileUri(fileUri).value == FileLocation(groups[0], groups[1], groups[2]);
    assert FormatFileUri(groups[0], groups[1], groups[2])
        == Scheme + (groups[0] + "/" + (groups[1] + "/" + groups[2]));
  }

  /** The parser accepts exactly the language of the pattern. */
  lemma ParseAcceptsExactlyPattern(u: string)
    ensures ParseFileUri(Some(u)).Ok? <==> MatchesFileUriPattern(u)
  {
    if ParseFileUri(Some(u)).Ok? {
      var loc := ParseFileUri(Some(u)).value;
      ParsedIsFormatted(Some(u));
      assert u == FormatFileUri(loc.region, loc.bucket, loc.filename);
    }
    if MatchesFileUriPattern(u) {
      var r, b, f :| IsSegment(r) && IsSegment(b) && IsSegment(f) && u == FormatFileUri(r, b, f);
      ParseFormatted(r, b, f);
    }
  }

  /** Any string outside the pattern (no scheme prefix, an empty segment, fewer
      or more than three segments) is an IllegalArgumentException. */
  lemma ParseRejectsNonMatching(u: string)
    requires !MatchesFileUriPattern(u)
    ensures ParseFileUri(Some(u)) == InvalidArgument
  {
    ParseAcceptsExactlyPattern(u);
  }

  /** A URI names a single location: the three segments are determined by it. */
  lemma FormatFileUriInjective(r: string, b: string, f: string, r': string, b': string, f': string)
    requires IsSegment(r) && IsSegment(b) && IsSegment(f)
    requires IsSegment(r') && IsSegment(b') && IsSegment(f')
    requires FormatFileUri(r, b, f) == FormatFileUri(r', b', f')
    ensures r == r' && b == b' && f == f'
  {
    ParseFormatted(r, b, f);
    ParseFormatted(r', b', f');
  }

  /** The caveat of storeFile: it formats its URI without checking the bucket
      and filename for '/', and with a '/' in either the URI it hands back is
      one that parseFileUri rejects. */
  lemma FormattedWithSlashRejected(region: string, bucket: string, filename: string)
    requires '/' in bucket || '/' in filename
    ensures ParseFileUri(Some(FormatFileUri(region, bucket, filename))) == InvalidArgument
  {
    var u := FormatFileUri(region, bucket, filename);
    assert Scheme <= u;
    assert u[|Scheme|..] == region + "/" + (bucket + "/" + filename);
    SplitAtSlash(region, bucket + "/" + filename);
    SplitAtSlash(bucket, filename);
    if '/' in bucket {
      SplitWithSlash(bucket);
    } else {
      SplitWithSlash(filename);
    }
  }

  /** Together: for a segment region and non-empty names, the URI storeFile
      returns parses back exactly when neither name contains '/'. */
  lemma FormattedParsesIffSlashFree(region: string, bucket: string, filename: string)
    requires IsSegment(region) && bucket != [] && filename != []
    ensures ParseFileUri(Some(FormatFileUri(region, bucket, filename))).Ok?
            <==> '/' !in bucket && '/' !in filename
  {
    if '/' in bucket || '/' in filename {
      FormattedWithSlashRejected(region, bucket, filename);
    } else {
      ParseFormatted(region, bucket, filename);
    }
  }

  /** The documented example URI. */
  lemma ParseExampleAccepted()
    ensures ParseFileUri(Some("s3://us-east-1/my-bucket/my-file.txt"))
            == Ok(FileLocation("us-east-1", "my-bucket", "my-file.txt"))
  {
    var u := FormatFileUri("us-east-1", "my-bucket", "my-file.txt");
    assert u == Scheme + "us-east-1" + "/" + "my-bucket" + "/" + "my-file.txt";
    assert u == "s3://us-east-1/my-bucket/my-file.txt";
    ParseFormatted("us-east-1", "my-bucket", "my-file.txt");
  }

  /** A URI that does not begin with the s3:// scheme. */
  lemma MissingSchemeRejected(u: string)
    requires !(Scheme <= u)
    ensures ParseFileUri(Some(u)) == InvalidArgument
  {
  }

  /** A URI with only two segments after the scheme. */
  lemma TwoSegmentsRejected(region: string, bucket: string)
    requires IsSegment(region) && IsSegment(bucket)
    ensures ParseFileUri(Some(Scheme + region + "/" + bucket)) == InvalidArgument
  {
    var u := Scheme + region + "/" + bucket;
    assert Scheme <= u;
    assert u[|Scheme|..] == region + "/" + bucket;
    SplitAtSlash(region, bucket);
    SplitSlashFree(region);
    SplitSlashFree(bucket);
  }

  /** A URI with four segments after the scheme. */
  lemma ExtraSegmentRejected(region: string, bucket: string, dir: string, filename: string)
    requires IsSegment(region) && IsSegment(bucket) && IsSegment(dir) && IsSegment(filename)
    ensures ParseFileUri(Some(Scheme + region + "/" + bucket + "/" + dir + "/" + filename)) == InvalidArgument
  {
    var rest := dir + "/" + filename;
    assert rest[|dir|] == '/';
    assert Scheme + region + "/" + bucket + "/" + dir + "/" + filename == FormatFileUri(region, bucket, rest);
    FormattedWithSlashRejected(region, bucket, rest);
  }

  /** A URI with three segments one of which is empty, whatever the others hold. */
  lemma EmptySegmentRejected(region: string, bucket: string, filename: string)
    requires region == [] || bucket == [] || filename == []
    ensures ParseFileUri(Some(FormatFileUri(region, bucket, filename))) == InvalidArgument
  {
    var u := FormatFileUri(region, bucket, filename);
    var groups := Split(u[|Scheme|..]);
    FormatFileUriPieces(region, bucket, filename);
    if |groups| == 3 {
      JoinSplit(region);
      JoinSplit(bucket);
      JoinSplit(filename);
      assert groups == [region, bucket, filename];
    }
  }
}
