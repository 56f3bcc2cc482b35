/** Hono's resource identifiers: paths of the form `endpoint/tenantId[/deviceId]`.
    An identifier is an immutable value holding its segments and the string form
    computed from them once, when it is built. */
module ResourceIdentifiers {
  import opened JavaLang

  const IDX_ENDPOINT: nat := 0
  const IDX_TENANT_ID: nat := 1
  const IDX_DEVICE_ID: nat := 2

  /** The tenant assumed when a string names none (`Constants.DEFAULT_TENANT`). Its value
      is left open: no property of the model depends on it. */
  const DEFAULT_TENANT: string

  /** The pattern segment that matches any path segment. */
  const WILDCARD: string := "*"

  const MSG_NO_ENDPOINT: string := "resource identifier must at least contain an endpoint"
  const MSG_MORE_THAN_TWO: string := "resource identifer must not contain more than 2 segments"
  const MSG_NO_TENANT: string := "resource identifier must at least contain an endpoint and the tenantId"
  const MSG_MORE_THAN_THREE: string := "resource identifer must not contain more than 3 segments"
  const MSG_HOLE: string := "path may contain trailing null segments only"
  const MSG_EMPTY_PATH: string := "path must have at least one segment"

  /** The two private fields of an identifier: the segments and the cached string form. */
  datatype ResourceIdentifier = ResourceIdentifier(resourcePath: seq<string>, resourceId: string)
  {
    /** Every identifier a factory builds has its string form cached correctly. */
    ghost predicate Valid() {
      resourceId == Join(resourcePath)
    }
  }

  // ---------------------------------------------------------------- string form

  /** The segments separated by single separators, with none in front or at the end. */
  function Join(segments: seq<string>): string
  {
    if |segments| == 0 then ""
    else if |segments| == 1 then segments[0]
    else Join(segments[..|segments| - 1]) + [SEPARATOR] + segments[|segments| - 1]
  }

  /** `createStringRepresentation`: appends each segment and, between segments, a separator. */
  method CreateStringRepresentation(resourcePath: seq<string>) returns (resourceId: string)
    ensures resourceId == Join(resourcePath)
  {
    var b := "";
    for i := 0 to |resourcePath|
      invariant i == 0 ==> b == ""
      invariant 0 < i < |resourcePath| ==> b == Join(resourcePath[..i]) + [SEPARATOR]
      invariant 0 < i == |resourcePath| ==> b == Join(resourcePath)
    {
      if i > 0 {
        assert resourcePath[..i + 1][..i] == resourcePath[..i];
      }
      b := b + resourcePath[i];
      assert b == Join(resourcePath[..i + 1]);
      if i < |resourcePath| - 1 {
        b := b + [SEPARATOR];
      }
    }
    if |resourcePath| > 0 {
      assert resourcePath[..|resourcePath|] == resourcePath;
    }
    resourceId := b;
  }

  /** A string without separator splits into itself alone. */
  lemma {:induction false} RawSplitSingle(s: string)
    requires SEPARATOR !in s
    ensures RawSplit(s) == [s]
  {
    if |s| > 0 {
      assert SEPARATOR !in s[1..];
      RawSplitSingle(s[1..]);
      assert s == [s[0]] + s[1..];
    }
  }

  /** Splitting `a/b`, where `b` holds no separator, splits `a` and adds `b` as the last piece. */
  lemma {:induction false} RawSplitAppend(a: string, b: string)
    requires SEPARATOR !in b
    ensures RawSplit(a + [SEPARATOR] + b) == RawSplit(a) + [b]
  {
    var s := a + [SEPARATOR] + b;
    if |a| == 0 {
      assert s == [SEPARATOR] + b;
      assert s[1..] == b;
      RawSplitSingle(b);
    } else {
      assert s[0] == a[0];
      assert s[1..] == a[1..] + [SEPARATOR] + b;
      RawSplitAppend(a[1..], b);
    }
  }

  /** Splitting the joined segments gives the segments back, as long as none of them
      contains a separator. */
  lemma {:induction false} RawSplitJoin(segments: seq<string>)
    requires |segments| >= 1
    requires forall i :: 0 <= i < |segments| ==> SEPARATOR !in segments[i]
    ensures RawSplit(Join(segments)) == segments
  {
    var n := |segments|;
    if n == 1 {
      RawSplitSingle(segments[0]);
    } else {
      var init := segments[..n - 1];
      RawSplitJoin(init);
      RawSplitAppend(Join(init), segments[n - 1]);
      assert init + [segments[n - 1]] == segments;
    }
  }

  /** The joined form of at least two segments contains a separator. */
  lemma JoinHasSeparator(segments: seq<string>)
    requires |segments| >= 2
    ensures SEPARATOR in Join(segments)
  {
  }

  /** The joined form of the first `k` segments starts the joined form of all of them. */
  lemma {:induction false} JoinPrefix(segments: seq<string>, k: nat)
    requires 1 <= k <= |segments|
    ensures Join(segments[..k]) <= Join(segments)
  {
    if k < |segments| {
      var init := segments[..|segments| - 1];
      JoinPrefix(init, k);
      assert init[..k] == segments[..k];
    } else {
      assert segments[..k] == segments;
    }
  }

  /** Java's `split` undoes `Join` for one segment without separator, and for two or more
      such segments whose last one is not empty (`split` drops a trailing empty segment). */
  lemma SplitJoin(segments: seq<string>)
    requires |segments| >= 1
    requires forall i :: 0 <= i < |segments| ==> SEPARATOR !in segments[i]
    requires |segments| >= 2 ==> segments[|segments| - 1] != ""
    ensures Split(Join(segments)) == segments
  {
    if |segments| >= 2 {
      JoinHasSeparator(segments);
      RawSplitJoin(segments);
    }
  }

  // ---------------------------------------------------------------- normalisation

  /** A null segment is followed, somewhere later, by a non-null one. */
  predicate HasHole(path: seq<Option<string>>)
  {
    exists i, j :: 0 <= i < j < |path| && path[i].None? && path[j].Some?
  }

  /** The segments before the first null one: the longest run of non-null segments
      at the start of `path`. */
  function NonNullPrefix(path: seq<Option<string>>): (r: seq<string>)
    ensures |r| <= |path|
    ensures forall i :: 0 <= i < |r| ==> path[i] == Some(r[i])
    ensures |r| < |path| ==> path[|r|].None?
  {
    if |path| == 0 || path[0].None? then []
    else [path[0].value] + NonNullPrefix(path[1..])
  }

  /** `NonNullPrefix` is the only sequence with its three properties. */
  lemma NonNullPrefixUnique(path: seq<Option<string>>, segments: seq<string>)
    requires |segments| <= |path|
    requires forall i :: 0 <= i < |segments| ==> path[i] == Some(segments[i])
    requires |segments| < |path| ==> path[|segments|].None?
    ensures NonNullPrefix(path) == segments
  {
  }

  /** What `setResourcePath` stores: it rejects a path with a hole, and otherwise keeps the
      non-null segments, which all come first, and drops the trailing nulls. */
  function Normalize(path: seq<Option<string>>): (r: Result<seq<string>>)
    ensures r.Failure? <==> HasHole(path)
    ensures r.Failure? ==> r.error == IllegalArgumentException(MSG_HOLE)
    ensures r.Success? ==>
              && |r.value| <= |path|
              && (forall i :: 0 <= i < |r.value| ==> path[i] == Some(r.value[i]))
              && (forall i :: |r.value| <= i < |path| ==> path[i].None?)
  {
    if HasHole(path) then Failure(IllegalArgumentException(MSG_HOLE))
    else
      var segments := NonNullPrefix(path);
      assert forall i :: |segments| <= i < |path| ==> path[i].None? by {
        forall i | |segments| <= i < |path| ensures path[i].None? {
          assert path[|segments|].None?;
          assert |segments| < i ==> !(path[|segments|].None? && path[i].Some?);
        }
      }
      Success(segments)
  }

  /** The segments, each as a non-null reference. */
  function Present(segments: seq<string>): (r: seq<Option<string>>)
    ensures |r| == |segments| && forall i :: 0 <= i < |r| ==> r[i] == Some(segments[i])
  {
    seq(|segments|, i requires 0 <= i < |segments| => Some(segments[i]))
  }

  /** `n` null references. */
  function Nulls(n: nat): (r: seq<Option<string>>)
    ensures |r| == n && forall i :: 0 <= i < n ==> r[i] == None
  {
    seq(n, i => None)
  }

  /** Conversely, any segments followed by any number of nulls normalise to those segments. */
  lemma NormalizePadded(segments: seq<string>, n: nat)
    ensures Normalize(Present(segments) + Nulls(n)) == Success(segments)
  {
    var path := Present(segments) + Nulls(n);
    assert !HasHole(path);
    NonNullPrefixUnique(path, segments);
  }

  /** The value the private constructors produce from the array they pass to
      `setResourcePath`: the normalised segments and their string form. */
  function Build(path: seq<Option<string>>): (r: Result<ResourceIdentifier>)
    ensures r.Failure? <==> HasHole(path)
    ensures r.Success? ==> r.value.resourcePath == NonNullPrefix(path) && r.value.Valid()
  {
    match Normalize(path)
    case Failure(e) => Failure(e)
    case Success(segments) =>
      NonNullPrefixUnique(path, segments);
      Success(ResourceIdentifier(segments, Join(segments)))
  }

  /** `setResourcePath`: walks the array with a flag that records a null segment seen,
      throws on a non-null segment after it, and then computes the string form. */
  method SetResourcePath(path: seq<Option<string>>) returns (r: Result<ResourceIdentifier>)
    ensures r == Build(path)
  {
    var pathSegments: seq<string> := [];
    var pathContainsNullSegment := false;
    for k := 0 to |path|
      invariant |pathSegments| <= k
      invariant forall i :: 0 <= i < |pathSegments| ==> path[i] == Some(pathSegments[i])
      invariant pathContainsNullSegment <==> |pathSegments| < k
      invariant forall i :: |pathSegments| <= i < k ==> path[i].None?
    {
      if path[k].None? {
        pathContainsNullSegment := true;
      } else if pathContainsNullSegment {
        assert path[|pathSegments|].None? && path[k].Some?;
        return Failure(IllegalArgumentException(MSG_HOLE));
      } else {
        pathSegments := pathSegments + [path[k].value];
      }
    }
    assert !HasHole(path);
    NonNullPrefixUnique(path, pathSegments);
    var resourceId := CreateStringRepresentation(pathSegments);
    r := Success(ResourceIdentifier(pathSegments, resourceId));
  }

  /** The three-element array the string constructors and `from` pass to `setResourcePath`
      never has a hole: its non-null entries are the stored segments. */
  lemma BuildTriple(endpoint: string, tenantId: string, deviceId: Option<string>)
    ensures Build([Some(endpoint), Some(tenantId), deviceId]).Success?
    ensures Build([Some(endpoint), Some(tenantId), deviceId]).value.resourcePath
            == [endpoint, tenantId] + (if deviceId.Some? then [deviceId.value] else [])
  {
    var segments := [endpoint, tenantId] + (if deviceId.Some? then [deviceId.value] else []);
    if deviceId.Some? {
      assert [Some(endpoint), Some(tenantId), deviceId] == Present(segments) + Nulls(0);
      NormalizePadded(segments, 0);
    } else {
      assert [Some(endpoint), Some(tenantId), deviceId] == Present(segments) + Nulls(1);
      NormalizePadded(segments, 1);
    }
  }

  // ---------------------------------------------------------------- factories

  /** The private string constructor: splits the string and checks the number of
      segments (one or two when the default tenant is assumed, two or three otherwise). */
  function Parse(resourceId: string, assumeDefaultTenant: bool): (r: Result<ResourceIdentifier>)
    ensures var path := Split(resourceId);
            r.Success? <==> if assumeDefaultTenant then 1 <= |path| <= 2 else 2 <= |path| <= 3
    ensures var path := Split(resourceId);
            r.Failure? ==> r.error == IllegalArgumentException(
              if assumeDefaultTenant then (if |path| == 0 then MSG_NO_ENDPOINT else MSG_MORE_THAN_TWO)
              else if |path| < 2 then MSG_NO_TENANT else MSG_MORE_THAN_THREE)
    ensures var path := Split(resourceId);
            r.Success? ==>
              && r.value.Valid()
              && r.value.resourcePath == (if assumeDefaultTenant then [path[0], DEFAULT_TENANT] + path[1..] else path)
  {
    var path := Split(resourceId);
    ParseBuildsSegments(resourceId);
    if assumeDefaultTenant then
      if |path| == 0 then Failure(IllegalArgumentException(MSG_NO_ENDPOINT))
      else if |path| > 2 then Failure(IllegalArgumentException(MSG_MORE_THAN_TWO))
      else Build([Some(path[0]), Some(DEFAULT_TENANT), if |path| == 2 then Some(path[1]) else None])
    else
      if |path| < 2 then Failure(IllegalArgumentException(MSG_NO_TENANT))
      else if |path| > 3 then Failure(IllegalArgumentException(MSG_MORE_THAN_THREE))
      else Build([Some(path[0]), Some(path[1]), if |path| == 3 then Some(path[2]) else None])
  }

  /** Whenever the segment count is accepted, the array handed to `setResourcePath` is
      free of holes and its non-null entries are the stored segments. */
  lemma ParseBuildsSegments(s: string)
    ensures var path := Split(s);
            2 <= |path| <= 3 ==>
              Build([Some(path[0]), Some(path[1]), if |path| == 3 then Some(path[2]) else None])
              == Success(ResourceIdentifier(path, Join(path)))
    ensures var path := Split(s);
            1 <= |path| <= 2 ==>
              Build([Some(path[0]), Some(DEFAULT_TENANT), if |path| == 2 then Some(path[1]) else None])
              == Success(ResourceIdentifier([path[0], DEFAULT_TENANT] + path[1..], Join([path[0], DEFAULT_TENANT] + path[1..])))
  {
    var path := Split(s);
    if 2 <= |path| <= 3 {
      var deviceId := if |path| == 3 then Some(path[2]) else None;
      BuildTriple(path[0], path[1], deviceId);
      assert [path[0], path[1]] + (if deviceId.Some? then [deviceId.value] else []) == path;
    }
    if 1 <= |path| <= 2 {
      var deviceId := if |path| == 2 then Some(path[1]) else None;
      BuildTriple(path[0], DEFAULT_TENANT, deviceId);
      assert (if deviceId.Some? then [deviceId.value] else []) == path[1..];
    }
  }

  /** `fromString`: succeeds exactly when the string splits into two or three segments,
      and then the identifier holds exactly those segments. */
  function FromString(resourceId: Option<string>): (r: Result<ResourceIdentifier>)
    ensures resourceId.None? ==> r == Failure(NullPointerException)
    ensures resourceId.Some? ==>
              var path := Split(resourceId.value);
              && (r.Success? <==> 2 <= |path| <= 3)
              && (|path| < 2 ==> r == Failure(IllegalArgumentException(MSG_NO_TENANT)))
              && (|path| > 3 ==> r == Failure(IllegalArgumentException(MSG_MORE_THAN_THREE)))
              && (r.Success? ==> r.value.resourcePath == path && r.value.Valid())
  {
    match resourceId
    case None => Failure(NullPointerException)
    case Some(s) => Parse(s, false)
  }

  /** `fromStringAssumingDefaultTenant`: succeeds exactly when the string splits into one
      or two segments; the tenant is always the default one and the second segment, if
      any, becomes the device id. */
  function FromStringAssumingDefaultTenant(resourceId: Option<string>): (r: Result<ResourceIdentifier>)
    ensures resourceId.None? ==> r == Failure(NullPointerException)
    ensures resourceId.Some? ==>
              var path := Split(resourceId.value);
              && (r.Success? <==> 1 <= |path| <= 2)
              && (|path| == 0 ==> r == Failure(IllegalArgumentException(MSG_NO_ENDPOINT)))
              && (|path| > 2 ==> r == Failure(IllegalArgumentException(MSG_MORE_THAN_TWO)))
              && (r.Success? ==> r.value.resourcePath == [path[0], DEFAULT_TENANT] + path[1..] && r.value.Valid())
  {
    match resourceId
    case None => Failure(NullPointerException)
    case Some(s) => Parse(s, true)
  }

  /** `from`: endpoint and tenant id must not be null; a null device id is left out. */
  function From(endpoint: Option<string>, tenantId: Option<string>, deviceId: Option<string>): (r: Result<ResourceIdentifier>)
    ensures r.Failure? <==> endpoint.None? || tenantId.None?
    ensures r.Failure? ==> r.error == NullPointerException
    ensures r.Success? ==>
              && r.value.resourcePath == [endpoint.value, tenantId.value] + (if deviceId.Some? then [deviceId.value] else [])
              && r.value.Valid()
  {
    if endpoint.None? || tenantId.None? then Failure(NullPointerException)
    else
      BuildTriple(endpoint.value, tenantId.value, deviceId);
      Build([endpoint, tenantId, deviceId])
  }

  /** `fromPath`: rejects a null or empty array and any array with a hole; otherwise
      keeps the segments before the trailing nulls. Nothing requires a tenant, or even
      an endpoint: an array of nulls gives an identifier without segments. */
  function FromPath(path: Option<seq<Option<string>>>): (r: Result<ResourceIdentifier>)
    ensures path.None? ==> r == Failure(NullPointerException)
    ensures path.Some? ==> (r.Success? <==> |path.value| > 0 && !HasHole(path.value))
    ensures path.Some? && |path.value| == 0 ==> r == Failure(IllegalArgumentException(MSG_EMPTY_PATH))
    ensures path.Some? && HasHole(path.value) ==> r == Failure(IllegalArgumentException(MSG_HOLE))
    ensures r.Success? ==> r.value.resourcePath == NonNullPrefix(path.value) && r.value.Valid()
  {
    match path
    case None => Failure(NullPointerException)
    case Some(p) =>
      if |p| == 0 then Failure(IllegalArgumentException(MSG_EMPTY_PATH))
      else Build(p)
  }

  /** `toPath`: a fresh array holding a copy of the segments. */
  method ToPath(id: ResourceIdentifier) returns (copy: array<string>)
    ensures fresh(copy)
    ensures copy[..] == id.resourcePath
  {
    copy := new string[|id.resourcePath|](i requires 0 <= i < |id.resourcePath| => id.resourcePath[i]);
  }

  // ---------------------------------------------------------------- accessors

  /** `getEndpoint`: the first segment; an identifier without segments throws. */
  function GetEndpoint(id: ResourceIdentifier): (r: Result<string>)
    ensures r.Success? <==> |id.resourcePath| > IDX_ENDPOINT
    ensures r.Failure? ==> r.error == ArrayIndexOutOfBoundsException(IDX_ENDPOINT)
    ensures r.Success? ==> r.value == id.resourcePath[IDX_ENDPOINT]
    ensures r.Success? && id.Valid() ==> r.value <= ToString(id)
  {
    if |id.resourcePath| > IDX_ENDPOINT then
      JoinPrefix(id.resourcePath, 1);
      assert id.resourcePath[..1] == [id.resourcePath[0]];
      Success(id.resourcePath[IDX_ENDPOINT])
    else Failure(ArrayIndexOutOfBoundsException(IDX_ENDPOINT))
  }

  /** `getTenantId`: the second segment; an identifier with fewer segments throws. */
  function GetTenantId(id: ResourceIdentifier): (r: Result<string>)
    ensures r.Success? <==> |id.resourcePath| > IDX_TENANT_ID
    ensures r.Failure? ==> r.error == ArrayIndexOutOfBoundsException(IDX_TENANT_ID)
    ensures r.Success? ==> r.value == id.resourcePath[IDX_TENANT_ID]
    ensures r.Success? && id.Valid() ==> id.resourcePath[IDX_ENDPOINT] + [SEPARATOR] + r.value <= ToString(id)
  {
    if |id.resourcePath| > IDX_TENANT_ID then
      JoinPrefix(id.resourcePath, 2);
      assert id.resourcePath[..2][..1] == [id.resourcePath[0]];
      Success(id.resourcePath[IDX_TENANT_ID])
    else Failure(ArrayIndexOutOfBoundsException(IDX_TENANT_ID))
  }

  /** `getDeviceId`: the third segment, or null when there is none. */
  function GetDeviceId(id: ResourceIdentifier): (r: Option<string>)
    ensures r.Some? <==> |id.resourcePath| > IDX_DEVICE_ID
    ensures r.Some? ==> r.value == id.resourcePath[IDX_DEVICE_ID]
    ensures r.Some? && |id.resourcePath| == 3 && id.Valid() ==>
              ToString(id) == Join(id.resourcePath[..2]) + [SEPARATOR] + r.value
  {
    if |id.resourcePath| > IDX_DEVICE_ID then Some(id.resourcePath[IDX_DEVICE_ID]) else None
  }

  /** `toString`: the string form cached at construction. */
  function ToString(id: ResourceIdentifier): (r: string)
    ensures id.Valid() ==> r == Join(id.resourcePath)
  {
    id.resourceId
  }

  // ---------------------------------------------------------------- matching

  /** A pattern fits a path when it has as many segments and each of its segments is the
      wildcard or equal to the path's segment at that position (a null one equals none). */
  predicate FitsPattern(resourcePath: seq<string>, pattern: seq<Option<string>>)
  {
    && |pattern| == |resourcePath|
    && forall i :: 0 <= i < |pattern| ==> pattern[i] == Some(WILDCARD) || pattern[i] == Some(resourcePath[i])
  }

  /** `matches`: compares lengths first, then walks the segments and-ing the comparisons
      of those whose pattern segment is not the wildcard. It never throws. */
  method Matches(id: ResourceIdentifier, pattern: seq<Option<string>>) returns (result: bool)
    ensures |pattern| != |id.resourcePath| ==> !result
    ensures result <==> FitsPattern(id.resourcePath, pattern)
  {
    if |id.resourcePath| != |pattern| {
      return false;
    }
    result := true;
    for i := 0 to |id.resourcePath|
      invariant result <==> forall k :: 0 <= k < i ==> pattern[k] == Some(WILDCARD) || pattern[k] == Some(id.resourcePath[k])
    {
      if pattern[i] == Some(WILDCARD) {
        continue;
      }
      result := result && pattern[i] == Some(id.resourcePath[i]);
    }
  }

  // ---------------------------------------------------------------- equality and hashing

  /** `equals`: a null reference is never equal; otherwise the segments are compared
      element by element, whatever factory built the two identifiers. */
  predicate Equals(id: ResourceIdentifier, other: Option<ResourceIdentifier>)
    ensures other == Some(id) ==> Equals(id, other)
    ensures other.None? ==> !Equals(id, other)
    ensures Equals(id, other) ==> other.Some? && HashCode(id) == HashCode(other.value)
  {
    other.Some? && id.resourcePath == other.value.resourcePath
  }

  /** `31^n`. */
  function Pow31(n: nat): int
  {
    if n == 0 then 1 else 31 * Pow31(n - 1)
  }

  /** The polynomial `xs[0]*31^(n-1) + ... + xs[n-1]` over the integers, without
      wrap-around: the closed form Java documents for its hash codes. */
  function Polynomial(xs: seq<int>): int
  {
    if |xs| == 0 then 0 else xs[0] * Pow31(|xs| - 1) + Polynomial(xs[1..])
  }

  /** Appending a term multiplies the polynomial by 31 and adds the term (Horner's rule). */
  lemma {:induction false} PolynomialSnoc(xs: seq<int>, x: int)
    ensures Polynomial(xs + [x]) == 31 * Polynomial(xs) + x
  {
    if |xs| == 0 {
      assert xs + [x] == [x];
    } else {
      assert (xs + [x])[1..] == xs[1..] + [x];
      PolynomialSnoc(xs[1..], x);
      assert xs[0] * Pow31(|xs|) == 31 * (xs[0] * Pow31(|xs| - 1));
    }
  }

  /** Values that differ by a multiple of `2^32` wrap to the same `int`. */
  lemma Wrap32Congruent(x: int, y: int, k: int)
    requires x - y == 0x1_0000_0000 * k
    ensures Wrap32(x) == Wrap32(y)
  {
    assert x % 0x1_0000_0000 == y % 0x1_0000_0000;
  }

  /** A Horner step in `int` arithmetic agrees with the step taken without wrap-around. */
  lemma WrapStep(h: int, p: int, c: int)
    requires h == Wrap32(p)
    ensures Wrap32(31 * h + c) == Wrap32(31 * p + c)
  {
    var k := (h - p) / 0x1_0000_0000;
    assert h - p == 0x1_0000_0000 * k;
    Wrap32Congruent(31 * h + c, 31 * p + c, 31 * k);
  }

  /** The character codes of a string. */
  function Codes(s: string): (r: seq<int>)
    ensures |r| == |s|
  {
    if |s| == 0 then [] else Codes(s[..|s| - 1]) + [s[|s| - 1] as int]
  }

  /** Java's `String.hashCode`, computed by Horner's rule in `int` arithmetic; it is the
      documented `s[0]*31^(n-1) + ... + s[n-1]`, wrapped to `int`. */
  function StringHashCode(s: string): (r: Int32)
    ensures r == Wrap32(Polynomial(Codes(s)))
  {
    if |s| == 0 then 0
    else
      var init, c := s[..|s| - 1], s[|s| - 1] as int;
      PolynomialSnoc(Codes(init), c);
      WrapStep(StringHashCode(init), Polynomial(Codes(init)), c);
      Wrap32(31 * StringHashCode(init) + c)
  }

  /** The hash codes of the segments. */
  function SegmentHashes(segments: seq<string>): (r: seq<int>)
    ensures |r| == |segments|
  {
    if |segments| == 0 then []
    else SegmentHashes(segments[..|segments| - 1]) + [StringHashCode(segments[|segments| - 1]) as int]
  }

  /** Java's `Arrays.hashCode` over an array of non-null strings, computed by Horner's rule
      from 1 in `int` arithmetic; it is `31^n + h[0]*31^(n-1) + ... + h[n-1]` over the
      segments' hash codes `h`, wrapped to `int`. */
  function ArraysHashCode(segments: seq<string>): (r: Int32)
    ensures r == Wrap32(Polynomial([1] + SegmentHashes(segments)))
  {
    if |segments| == 0 then
      assert [1] + SegmentHashes(segments) == [1];
      1
    else
      var init := segments[..|segments| - 1];
      var h := StringHashCode(segments[|segments| - 1]) as int;
      assert [1] + SegmentHashes(segments) == ([1] + SegmentHashes(init)) + [h];
      PolynomialSnoc([1] + SegmentHashes(init), h);
      WrapStep(ArraysHashCode(init), Polynomial([1] + SegmentHashes(init)), h);
      Wrap32(31 * ArraysHashCode(init) + h)
  }

  /** `hashCode`: derived from the segments alone, by the closed form of `Arrays.hashCode`. */
  function HashCode(id: ResourceIdentifier): (r: Int32)
    ensures r == Wrap32(Polynomial([1] + SegmentHashes(id.resourcePath)))
  {
    ArraysHashCode(id.resourcePath)
  }

  // ---------------------------------------------------------------- properties

  /** Equality is structural: for identifiers built by the factories, `equals` holds
      exactly when they are the same value, and equal identifiers hash alike. */
  lemma EqualsIsStructural(a: ResourceIdentifier, b: ResourceIdentifier)
    requires a.Valid() && b.Valid()
    ensures Equals(a, Some(b)) <==> a == b
    ensures Equals(a, Some(b)) ==> HashCode(a) == HashCode(b)
    ensures !Equals(a, None)
  {
  }

  /** The string form is the segments joined by single separators, and printing then
      parsing gives the identifier back when it has two or three segments, none with a
      separator in it and the last one not empty. */
  lemma FromStringOfToString(id: ResourceIdentifier)
    requires id.Valid()
    requires 2 <= |id.resourcePath| <= 3
    requires forall i :: 0 <= i < |id.resourcePath| ==> SEPARATOR !in id.resourcePath[i]
    requires id.resourcePath[|id.resourcePath| - 1] != ""
    ensures ToString(id) == Join(id.resourcePath)
    ensures FromString(Some(ToString(id))) == Success(id)
  {
    SplitJoin(id.resourcePath);
  }

  /** Parsing is stable: re-parsing the string form of a parsed identifier gives the same
      identifier, even when the original string had trailing separators. */
  lemma FromStringIdempotent(s: string)
    requires FromString(Some(s)).Success?
    ensures FromString(Some(ToString(FromString(Some(s)).value))) == FromString(Some(s))
  {
    var id := FromString(Some(s)).value;
    assert SEPARATOR in s;
    FromStringOfToString(id);
  }

  /** `from` and `fromPath` build the same identifier from the same segments, with or
      without a trailing null for the device id. */
  lemma FromAgreesWithFromPath(endpoint: string, tenantId: string, deviceId: Option<string>)
    ensures From(Some(endpoint), Some(tenantId), deviceId)
            == FromPath(Some([Some(endpoint), Some(tenantId), deviceId]))
    ensures From(Some(endpoint), Some(tenantId), None)
            == FromPath(Some([Some(endpoint), Some(tenantId)]))
  {
    var pair := [Some(endpoint), Some(tenantId)];
    assert !HasHole(pair);
    NonNullPrefixUnique(pair, [endpoint, tenantId]);
    var a := FromPath(Some(pair));
    assert a.Success?;
    assert a.value.resourcePath == [endpoint, tenantId];
    var b := From(Some(endpoint), Some(tenantId), None);
    assert b.value.resourcePath == [endpoint, tenantId];
    assert a.value.resourceId == b.value.resourceId;
  }

  /** `from` and `fromString` on the joined form build the same identifier, as long as no
      segment holds a separator and the last one is not empty (`split` would drop it). */
  lemma FactoriesAgree(endpoint: string, tenantId: string, deviceId: Option<string>)
    requires SEPARATOR !in endpoint && SEPARATOR !in tenantId
    requires deviceId.Some? ==> SEPARATOR !in deviceId.value
    requires if deviceId.Some? then deviceId.value != "" else tenantId != ""
    ensures var segments := [endpoint, tenantId] + (if deviceId.Some? then [deviceId.value] else []);
            From(Some(endpoint), Some(tenantId), deviceId) == FromString(Some(Join(segments)))
  {
    var segments := [endpoint, tenantId] + (if deviceId.Some? then [deviceId.value] else []);
    SplitJoin(segments);
  }

  /** What the accessors report for each factory: endpoint and tenant are the first two
      segments, the device id is the third or null, and the default-tenant parser always
      reports the default tenant. */
  lemma AccessorsOfFactories(s: string, endpoint: string, tenantId: string, deviceId: Option<string>)
    ensures FromString(Some(s)).Success? ==>
              var path := Split(s);
              var id := FromString(Some(s)).value;
              && GetEndpoint(id) == Success(path[0])
              && GetTenantId(id) == Success(path[1])
              && GetDeviceId(id) == (if |path| == 3 then Some(path[2]) else None)
    ensures FromStringAssumingDefaultTenant(Some(s)).Success? ==>
              var path := Split(s);
              var id := FromStringAssumingDefaultTenant(Some(s)).value;
              && GetEndpoint(id) == Success(path[0])
              && GetTenantId(id) == Success(DEFAULT_TENANT)
              && GetDeviceId(id) == (if |path| == 2 then Some(path[1]) else None)
    ensures var id := From(Some(endpoint), Some(tenantId), deviceId).value;
            && GetEndpoint(id) == Success(endpoint)
            && GetTenantId(id) == Success(tenantId)
            && GetDeviceId(id) == deviceId
  {
  }

  /** `fromPath` guarantees neither a tenant nor an endpoint: a lone segment has no
      tenant, and a lone null gives an identifier without segments. */
  lemma FromPathWithoutTenant(endpoint: string)
    ensures FromPath(Some([Some(endpoint)])) == Success(ResourceIdentifier([endpoint], endpoint))
    ensures GetTenantId(FromPath(Some([Some(endpoint)])).value) == Failure(ArrayIndexOutOfBoundsException(IDX_TENANT_ID))
    ensures FromPath(Some([None])) == Success(ResourceIdentifier([], ""))
    ensures GetEndpoint(FromPath(Some([None])).value) == Failure(ArrayIndexOutOfBoundsException(IDX_ENDPOINT))
  {
    NormalizePadded([endpoint], 0);
    assert [Some(endpoint)] == Present([endpoint]) + Nulls(0);
    NormalizePadded([], 1);
    assert [None] == Present([]) + Nulls(1);
  }

  /** A pattern of wildcards of the right length fits every identifier, and so does the
      identifier's own path; a pattern of another length fits none; and widening any
      segment of a fitting pattern to the wildcard keeps it fitting. */
  lemma FitsPatternProperties(id: ResourceIdentifier, pattern: seq<Option<string>>, k: nat)
    ensures FitsPattern(id.resourcePath, seq(|id.resourcePath|, i => Some(WILDCARD)))
    ensures FitsPattern(id.resourcePath, Present(id.resourcePath))
    ensures |pattern| != |id.resourcePath| ==> !FitsPattern(id.resourcePath, pattern)
    ensures k < |pattern| && FitsPattern(id.resourcePath, pattern) ==>
              FitsPattern(id.resourcePath, pattern[k := Some(WILDCARD)])
  {
  }

  /** "onlyendpoint" has too few segments and "a/b/c/d" too many for `fromString`. */
  lemma ExampleSegmentCounts()
    ensures FromString(Some("onlyendpoint")) == Failure(IllegalArgumentException(MSG_NO_TENANT))
    ensures FromString(Some("a/b/c/d")) == Failure(IllegalArgumentException(MSG_MORE_THAN_THREE))
  {
    assert SEPARATOR !in "onlyendpoint";
    assert "a/b/c/d" == Join(["a", "b", "c", "d"]) by {
      assert ["a", "b", "c", "d"][..3] == ["a", "b", "c"];
      assert ["a", "b", "c"][..2] == ["a", "b"];
      assert ["a", "b"][..1] == ["a"];
    }
    SplitJoin(["a", "b", "c", "d"]);
  }

  /** "ep/dev" with the default tenant assumed is `ep/DEFAULT_TENANT/dev`. */
  lemma ExampleDefaultTenant()
    ensures FromStringAssumingDefaultTenant(Some("ep/dev")).Success?
    ensures FromStringAssumingDefaultTenant(Some("ep/dev")).value.resourcePath == ["ep", DEFAULT_TENANT, "dev"]
  {
    assert "ep/dev" == Join(["ep", "dev"]) by {
      assert ["ep", "dev"][..1] == ["ep"];
    }
    SplitJoin(["ep", "dev"]);
  }

  /** `fromPath(["ep", "t", null])` equals `from("ep", "t", null)`, and
      `fromPath(["ep", null, "d"])` fails on its hole. */
  lemma ExampleFromPath()
    ensures FromPath(Some([Some("ep"), Some("t"), None])) == From(Some("ep"), Some("t"), None)
    ensures FromPath(Some([Some("ep"), None, Some("d")])) == Failure(IllegalArgumentException(MSG_HOLE))
  {
    FromAgreesWithFromPath("ep", "t", None);
    var p := [Some("ep"), None, Some("d")];
    assert p[1].None? && p[2].Some?;
  }

  /** `["ep", "*", "d1"]` fits `ep/t1/d1` but not `ep/t1/d2`. */
  lemma ExampleMatches()
    ensures FitsPattern(From(Some("ep"), Some("t1"), Some("d1")).value.resourcePath, [Some("ep"), Some(WILDCARD), Some("d1")])
    ensures !FitsPattern(From(Some("ep"), Some("t1"), Some("d2")).value.resourcePath, [Some("ep"), Some(WILDCARD), Some("d1")])
  {
  }
}
