/**
 * The request-signing pipeline of `HttpMethods`: the parameter set the
 * interceptor builds for every request (`addParams`), its canonical string
 * (`formatUrlMap`), the signing input and its digest (`getSign`) and the
 * `timestamp` and `signature` headers that carry them.
 *
 * The global configuration of `OneHttpManager` (token, per-path secret, extra
 * body entries) and every platform read are explicit inputs; MD5 is an
 * uninterpreted function passed in with them.
 */
module HttpMethods {
  import opened Wrappers
  import opened JvmText
  import Base64
  import DeviceUtils

  // ---------------------------------------------------------------------------
  // Parameter values

  /**
   * A parameter value (`Any`) as the signature sees it: through `toString()`.
   * `Other` is any other object; its `shown` is `None` when `toString()` throws.
   */
  datatype Value =
    | Text(s: string)
    | Int(n: Int32)
    | Other(shown: Option<string>)

  /** `value.toString()`, or `None` when it throws. */
  function ValueText(v: Value): Option<string>
  {
    match v
    case Text(s) => Some(s)
    case Int(n) => Some(IntText(n))
    case Other(shown) => shown
  }

  /** A map entry `(key, value)`. */
  type Entry = (string, Value)

  // ---------------------------------------------------------------------------
  // addParams

  /** A request body: absent, a `FormBody` of encoded name/value pairs, or another kind. */
  datatype Body = NoBody | FormBody(fields: seq<(string, string)>) | OtherBody

  /**
   * What `addParams` reads from the request: its method, the query of its URL
   * (`None` for a name without a value) and its body.
   */
  datatype Request = Request(verb: string, query: seq<(string, Option<string>)>, body: Body)

  /**
   * Why `addParams` throws: a POST or PUT without a body (`formBody!!`), with a
   * body that is not a form (the cast), or with a value `URLDecoder.decode`
   * rejects.
   */
  datatype ParamsError = NullBody | NotAFormBody | MalformedFormValue

  /** A list of pairs stored one by one into a map: a later pair overwrites an earlier one. */
  function FromPairs(ps: seq<Entry>): map<string, Value>
  {
    if ps == [] then map[] else FromPairs(ps[..|ps| - 1])[ps[|ps| - 1].0 := ps[|ps| - 1].1]
  }

  /** Keys are exactly the pairs' names, and each maps to its last pair's value. */
  lemma {:induction false} FromPairsLastWins(ps: seq<Entry>, k: string)
    ensures k in FromPairs(ps) <==> exists i :: 0 <= i < |ps| && ps[i].0 == k
    ensures forall i :: 0 <= i < |ps| && ps[i].0 == k && (forall j :: i < j < |ps| ==> ps[j].0 != k)
              ==> FromPairs(ps)[k] == ps[i].1
  {
    if ps != [] {
      var n := |ps| - 1;
      FromPairsLastWins(ps[..n], k);
      if ps[n].0 != k {
        forall i | 0 <= i < |ps| && ps[i].0 == k
          ensures 0 <= i < n && ps[..n][i].0 == k
        {
        }
        forall i | 0 <= i < n && ps[..n][i].0 == k
          ensures 0 <= i < |ps| && ps[i].0 == k
        {
        }
      }
    }
  }

  /** A query value as stored: `queryParameterValue(i).toString()`, so null becomes "null". */
  function QueryValueText(v: Option<string>): string
  {
    match v
    case Some(s) => s
    case None => "null"
  }

  function QueryPairs(query: seq<(string, Option<string>)>): (ps: seq<Entry>)
    ensures |ps| == |query|
    ensures forall i :: 0 <= i < |ps| ==> ps[i] == (query[i].0, Text(QueryValueText(query[i].1)))
  {
    seq(|query|, i requires 0 <= i < |query| => (query[i].0, Text(QueryValueText(query[i].1))))
  }

  /**
   * The form fields with their values decoded; the names stay encoded.
   * `urlDecode` is `URLDecoder.decode(_, "UTF-8")`, `None` where it throws.
   */
  function FormPairs(fields: seq<(string, string)>, urlDecode: string -> Option<string>): Option<seq<Entry>>
  {
    if fields == [] then Some([])
    else
      var last := fields[|fields| - 1];
      match FormPairs(fields[..|fields| - 1], urlDecode)
      case None => None
      case Some(ps) =>
        match urlDecode(last.1)
        case None => None
        case Some(v) => Some(ps + [(last.0, Text(v))])
  }

  /** The fields `addParams` takes from the request itself. */
  function RequestFields(request: Request, urlDecode: string -> Option<string>): Result<map<string, Value>, ParamsError>
  {
    if request.verb == "GET" then Success(FromPairs(QueryPairs(request.query)))
    else if request.verb == "POST" || request.verb == "PUT" then
      match request.body
      case NoBody => Failure(NullBody)
      case OtherBody => Failure(NotAFormBody)
      case FormBody(fields) =>
        match FormPairs(fields, urlDecode)
        case None => Failure(MalformedFormValue)
        case Some(ps) => Success(FromPairs(ps))
    else Success(map[])
  }

  /**
   * A GET request yields exactly the names of its query, each holding the text
   * of its last occurrence's value ("null" for a name without a value).
   */
  lemma GetRequestFields(request: Request, urlDecode: string -> Option<string>)
    requires request.verb == "GET"
    ensures RequestFields(request, urlDecode).Success?
    ensures var fields := RequestFields(request, urlDecode).value;
      var q := request.query;
      && (forall k :: k in fields <==> exists i :: 0 <= i < |q| && q[i].0 == k)
      && (forall i :: 0 <= i < |q| && (forall j :: i < j < |q| ==> q[j].0 != q[i].0)
            ==> fields[q[i].0] == Text(QueryValueText(q[i].1)))
  {
    var q := request.query;
    var ps := QueryPairs(q);
    forall k
      ensures k in FromPairs(ps) <==> exists i :: 0 <= i < |q| && q[i].0 == k
    {
      FromPairsLastWins(ps, k);
      if k in FromPairs(ps) {
        var i :| 0 <= i < |ps| && ps[i].0 == k;
        assert q[i].0 == k;
      }
    }
    forall i | 0 <= i < |q| && (forall j :: i < j < |q| ==> q[j].0 != q[i].0)
      ensures FromPairs(ps)[q[i].0] == Text(QueryValueText(q[i].1))
    {
      FromPairsLastWins(ps, q[i].0);
      assert forall j :: i < j < |ps| ==> ps[j].0 == q[j].0;
    }
  }

  /** A form is read without error exactly when every value decodes. */
  lemma {:induction false} FormPairsDefined(fields: seq<(string, string)>, urlDecode: string -> Option<string>)
    ensures FormPairs(fields, urlDecode).Some? <==> forall i :: 0 <= i < |fields| ==> urlDecode(fields[i].1).Some?
    ensures FormPairs(fields, urlDecode).Some? ==>
      var ps := FormPairs(fields, urlDecode).value;
      |ps| == |fields| &&
      forall i :: 0 <= i < |ps| ==> ps[i] == (fields[i].0, Text(urlDecode(fields[i].1).value))
  {
    if fields != [] {
      var n := |fields| - 1;
      FormPairsDefined(fields[..n], urlDecode);
      assert forall i :: 0 <= i < n ==> fields[..n][i] == fields[i];
    }
  }

  /** What `addParams` reads from the platform and `DeviceUtils`. */
  datatype Device = Device(
    isHarmonyOs: bool,                  // DeviceUtils.isHarmonyOs()
    display: string,                    // Build.DISPLAY
    sdkInt: Int32,                      // Build.VERSION.SDK_INT
    androidId: Option<string>,          // Settings.Secure ANDROID_ID
    brand: Option<string>,              // Build.BRAND
    model: Option<string>,              // Build.MODEL
    readPhoneStateGranted: bool,        // READ_PHONE_STATE permission check
    telephony: DeviceUtils.Telephony,
    systemProperty: string -> string)   // SystemProperties.get(key, "")

  /** `DeviceUtils.iMEI`. */
  function DeviceImei(device: Device): string
  {
    DeviceUtils.ImeiOrMeid(true, device.sdkInt, device.telephony, device.systemProperty)
  }

  /** `if (isHarmonyOs()) "HarmonyOs" else "android"`. */
  function OsName(device: Device): string
  {
    if device.isHarmonyOs then "HarmonyOs" else "android"
  }

  /** `Build.DISPLAY` on HarmonyOS, otherwise the SDK level as an `Int`. */
  function OsVersion(device: Device): Value
  {
    if device.isHarmonyOs then Text(device.display) else Int(device.sdkInt)
  }

  /** `DeviceUtils.androidID`: the ANDROID_ID setting, or "" when it is null. */
  function AndroidId(device: Device): string
  {
    match device.androidId
    case Some(id) => id
    case None => ""
  }

  /** The five fields `addParams` stores for every request. */
  function FixedDeviceFields(device: Device): map<string, Value>
  {
    map["osName" := Text(OsName(device)),
        "osVersion" := OsVersion(device),
        "deviceId" := Text(AndroidId(device)),
        "deviceBrand" := Text(DeviceUtils.GetBrand(device.brand)),
        "deviceModel" := Text(DeviceUtils.GetModel(device.model))]
  }

  /** The device fields `addParams` stores over the request's own, `imei` only with permission and a non-empty IMEI. */
  function DeviceFields(device: Device): (fields: map<string, Value>)
    ensures fields.Keys == {"osName", "osVersion", "deviceId", "deviceBrand", "deviceModel"}
                           + (if device.readPhoneStateGranted && DeviceImei(device) != "" then {"imei"} else {})
    ensures "imei" in fields ==> fields["imei"] == Text(DeviceImei(device))
  {
    var imei := DeviceImei(device);
    if device.readPhoneStateGranted && imei != "" then FixedDeviceFields(device)["imei" := Text(imei)]
    else FixedDeviceFields(device)
  }

  /** The first half of `addParams`: the query of a GET, the decoded form of a POST or PUT. */
  method ReadRequestFields(request: Request, urlDecode: string -> Option<string>)
    returns (r: Result<map<string, Value>, ParamsError>)
    ensures r == RequestFields(request, urlDecode)
  {
    var params: map<string, Value> := map[];
    if request.verb == "GET" {
      var query := request.query;
      var i := 0;
      while i < |query|
        invariant 0 <= i <= |query|
        invariant params == FromPairs(QueryPairs(query)[..i])
      {
        assert QueryPairs(query)[..i + 1][..i] == QueryPairs(query)[..i];
        params := params[query[i].0 := Text(QueryValueText(query[i].1))];
        i := i + 1;
      }
      assert QueryPairs(query)[..i] == QueryPairs(query);
    } else if request.verb == "POST" || request.verb == "PUT" {
      match request.body
      case NoBody =>
        return Failure(NullBody);
      case OtherBody =>
        return Failure(NotAFormBody);
      case FormBody(fields) =>
        var i := 0;
        while i < |fields|
          invariant 0 <= i <= |fields|
          invariant FormPairs(fields[..i], urlDecode).Some?
          invariant params == FromPairs(FormPairs(fields[..i], urlDecode).value)
        {
          assert fields[..i + 1][..i] == fields[..i];
          var decoded := urlDecode(fields[i].1);
          if decoded.None? {
            FormPairsDefined(fields, urlDecode);
            return Failure(MalformedFormValue);
          }
          params := params[fields[i].0 := Text(decoded.value)];
          i := i + 1;
        }
        assert fields[..i] == fields;
    }
    r := Success(params);
  }

  /** Five updates in a row are a union with the map of the five pairs, a later pair winning. */
  lemma UpdatesAreUnion<K, V>(m: map<K, V>, k1: K, v1: V, k2: K, v2: V, k3: K, v3: V, k4: K, v4: V, k5: K, v5: V)
    ensures m[k1 := v1][k2 := v2][k3 := v3][k4 := v4][k5 := v5]
         == m + map[k1 := v1, k2 := v2, k3 := v3, k4 := v4, k5 := v5]
  {
  }

  /** The second half of `addParams`: the device fields, stored over what is there. */
  method PutDeviceFields(params: map<string, Value>, device: Device) returns (r: map<string, Value>)
    ensures r == params + DeviceFields(device)
  {
    r := params["osName" := Text(OsName(device))];
    r := r["osVersion" := OsVersion(device)];
    r := r["deviceId" := Text(AndroidId(device))];
    r := r["deviceBrand" := Text(DeviceUtils.GetBrand(device.brand))];
    r := r["deviceModel" := Text(DeviceUtils.GetModel(device.model))];
    UpdatesAreUnion(params, "osName", Text(OsName(device)), "osVersion", OsVersion(device),
                    "deviceId", Text(AndroidId(device)), "deviceBrand", Text(DeviceUtils.GetBrand(device.brand)),
                    "deviceModel", Text(DeviceUtils.GetModel(device.model)));
    var imei := DeviceUtils.GetImeiOrMeid(true, device.sdkInt, device.telephony, device.systemProperty);
    if device.readPhoneStateGranted && imei != "" {
      r := r["imei" := Text(imei)];
    }
  }

  /**
   * `addParams(request)`: the request's fields, overwritten by the device
   * fields, overwritten in turn by `OneHttpManager.body()`; it throws exactly
   * when reading the request's own fields does.
   */
  method AddParams(request: Request, urlDecode: string -> Option<string>, device: Device, body: map<string, Value>)
    returns (r: Result<map<string, Value>, ParamsError>)
    ensures r.Failure? <==> RequestFields(request, urlDecode).Failure?
    ensures r.Failure? ==> r.error == RequestFields(request, urlDecode).error
    ensures r.Success? ==>
      var own := RequestFields(request, urlDecode).value;
      var dev := DeviceFields(device);
      var params := r.value;
      && params.Keys == own.Keys + dev.Keys + body.Keys
      && (forall k :: k in body ==> params[k] == body[k])
      && (forall k :: k in dev && k !in body ==> params[k] == dev[k])
      && (forall k :: k in own && k !in dev && k !in body ==> params[k] == own[k])
  {
    var own := ReadRequestFields(request, urlDecode);
    if own.Failure? {
      return own;
    }
    var params := PutDeviceFields(own.value, device);
    params := PutAll(params, body);
    r := Success(params);
  }

  /** `forEach { params[it.key] = it.value }`: every entry of `entries` stored over `params`. */
  method PutAll(params: map<string, Value>, entries: map<string, Value>) returns (r: map<string, Value>)
    ensures r == params + entries
  {
    r := params;
    var rest := entries.Keys;
    while rest != {}
      invariant rest <= entries.Keys
      invariant r.Keys == params.Keys + (entries.Keys - rest)
      invariant forall k :: k in r ==> r[k] == if k in entries && k !in rest then entries[k] else params[k]
      decreases |rest|
    {
      var k :| k in rest;
      r := r[k := entries[k]];
      rest := rest - {k};
    }
  }

  // ---------------------------------------------------------------------------
  // formatUrlMap: the canonical string

  /** Keys strictly ascending by `compareTo`, as `Collections.sort` leaves distinct keys. */
  predicate KeysAscending(es: seq<Entry>)
  {
    forall i, j :: 0 <= i < j < |es| ==> CompareTo(es[i].0, es[j].0) < 0
  }

  predicate DistinctKeys(es: seq<Entry>)
  {
    forall i, j :: 0 <= i < j < |es| ==> es[i].0 != es[j].0
  }

  /** `es` lists the entries of `m`, each once, in some order. */
  ghost predicate IsListingOf(es: seq<Entry>, m: map<string, Value>)
  {
    && DistinctKeys(es)
    && (forall e :: e in es ==> e.0 in m && e.1 == m[e.0])
    && (forall k :: k in m ==> (k, m[k]) in es)
  }

  lemma CompareToIrreflexive(a: string)
    ensures CompareTo(a, a) == 0
  {
    CompareToZero(a, a);
  }

  /** Strictly ascending keys are distinct. */
  lemma AscendingDistinct(es: seq<Entry>)
    requires KeysAscending(es)
    ensures DistinctKeys(es)
  {
    forall i, j | 0 <= i < j < |es|
      ensures es[i].0 != es[j].0
    {
      CompareToZero(es[i].0, es[j].0);
    }
  }

  /** `k` is in `keys` and below every other key of it. */
  predicate IsLeast(k: string, keys: set<string>)
  {
    k in keys && forall k' :: k' in keys && k' != k ==> CompareTo(k, k') < 0
  }

  /** A key below the least of a set is the least of the set with it added. */
  lemma BelowLeast(x: string, y: string, others: set<string>)
    requires IsLeast(y, others) && CompareTo(x, y) < 0
    ensures IsLeast(x, others + {x})
  {
    forall k' | k' in others + {x} && k' != x
      ensures CompareTo(x, k') < 0
    {
      if k' != y {
        CompareToTransitive(x, y, k');
      }
    }
  }

  /** The least of a set stays least when a greater key is added. */
  lemma AboveLeast(x: string, y: string, others: set<string>)
    requires IsLeast(y, others) && CompareTo(y, x) < 0
    ensures IsLeast(y, others + {x})
  {
  }

  /** Every non-empty finite set of keys has a least element. */
  lemma {:induction false} LeastKeyExists(keys: set<string>)
    requires keys != {}
    ensures exists k :: IsLeast(k, keys)
    decreases |keys|
  {
    var x :| x in keys;
    var others := keys - {x};
    assert keys == others + {x};
    if others == {} {
      assert IsLeast(x, keys);
    } else {
      LeastKeyExists(others);
      var y :| IsLeast(y, others);
      CompareToZero(x, y);
      CompareToFlip(x, y);
      if CompareTo(x, y) < 0 {
        BelowLeast(x, y, others);
      } else {
        AboveLeast(x, y, others);
      }
    }
  }

  ghost function LeastKey(keys: set<string>): (k: string)
    requires keys != {}
    ensures k in keys && forall k' :: k' in keys && k' != k ==> CompareTo(k, k') < 0
  {
    LeastKeyExists(keys);
    var k :| IsLeast(k, keys);
    k
  }

  /** The keys of a set in ascending `compareTo` order. */
  ghost function SortedKeys(keys: set<string>): (ks: seq<string>)
    ensures |ks| == |keys|
    ensures forall k :: k in ks <==> k in keys
    ensures forall i, j :: 0 <= i < j < |ks| ==> CompareTo(ks[i], ks[j]) < 0
    decreases |keys|
  {
    if keys == {} then []
    else
      var k := LeastKey(keys);
      var rest := SortedKeys(keys - {k});
      PrependLeast(k, rest, keys);
      [k] + rest
  }

  /** The least key followed by the others in ascending order lists the set in ascending order. */
  lemma PrependLeast(k: string, rest: seq<string>, keys: set<string>)
    requires IsLeast(k, keys)
    requires |rest| == |keys - {k}| && forall k' :: k' in rest <==> k' in keys - {k}
    requires forall i, j :: 0 <= i < j < |rest| ==> CompareTo(rest[i], rest[j]) < 0
    ensures |[k] + rest| == |keys|
    ensures forall k' :: k' in [k] + rest <==> k' in keys
    ensures forall i, j :: 0 <= i < j < |[k] + rest| ==> CompareTo(([k] + rest)[i], ([k] + rest)[j]) < 0
  {
    var s := [k] + rest;
    forall i, j | 0 <= i < j < |s|
      ensures CompareTo(s[i], s[j]) < 0
    {
      if i == 0 {
        assert s[j] == rest[j - 1] && s[j] in rest;
      } else {
        assert s[i] == rest[i - 1] && s[j] == rest[j - 1];
      }
    }
  }

  /** The entries of `m` for the keys `ks`, in that order. */
  ghost function EntriesFor(ks: seq<string>, m: map<string, Value>): (es: seq<Entry>)
    requires forall i :: 0 <= i < |ks| ==> ks[i] in m
    ensures |es| == |ks| && forall i :: 0 <= i < |es| ==> es[i] == (ks[i], m[ks[i]])
  {
    seq(|ks|, i requires 0 <= i < |ks| => (ks[i], m[ks[i]]))
  }

  lemma EntriesForSortedKeys(m: map<string, Value>, ks: seq<string>)
    requires forall k :: k in ks <==> k in m
    requires forall i, j :: 0 <= i < j < |ks| ==> CompareTo(ks[i], ks[j]) < 0
    ensures IsListingOf(EntriesFor(ks, m), m) && KeysAscending(EntriesFor(ks, m))
  {
    var es := EntriesFor(ks, m);
    AscendingDistinct(es);
    forall e | e in es
      ensures e.0 in m && e.1 == m[e.0]
    {
      var i :| 0 <= i < |es| && es[i] == e;
    }
    forall k | k in m
      ensures (k, m[k]) in es
    {
      var i :| 0 <= i < |ks| && ks[i] == k;
      assert es[i] == (k, m[k]);
    }
  }

  /** The entries of `m` in ascending key order: what `formatUrlMap` walks after sorting. */
  ghost function SortedListing(m: map<string, Value>): (es: seq<Entry>)
    ensures IsListingOf(es, m) && KeysAscending(es)
  {
    var ks := SortedKeys(m.Keys);
    EntriesForSortedKeys(m, ks);
    EntriesFor(ks, m)
  }

  /** Keys strictly ascending by `compareTo`. */
  predicate Ascending(ks: seq<string>)
  {
    forall i, j :: 0 <= i < j < |ks| ==> CompareTo(ks[i], ks[j]) < 0
  }

  /** Two non-empty ascending sequences with the same elements start alike. */
  lemma AscendingSameHead(a: seq<string>, b: seq<string>)
    requires a != [] && b != [] && Ascending(a) && Ascending(b)
    requires forall k :: k in a <==> k in b
    ensures a[0] == b[0]
  {
    assert a[0] in a && b[0] in b;
    var i :| 0 <= i < |a| && a[i] == b[0];
    var j :| 0 <= j < |b| && b[j] == a[0];
    if i != 0 && j != 0 {
      CompareToTransitive(a[0], a[i], a[0]);
      CompareToIrreflexive(a[0]);
    }
  }

  /** After a common head, whatever follows it in one ascending sequence follows it in the other. */
  lemma AscendingTailMember(a: seq<string>, b: seq<string>, k: string)
    requires a != [] && b != [] && Ascending(a) && a[0] == b[0]
    requires forall k :: k in a <==> k in b
    requires k in a[1..]
    ensures k in b[1..]
  {
    var p :| 1 <= p < |a| && a[p] == k;
    CompareToIrreflexive(k);
    assert k in b;
    var q :| 0 <= q < |b| && b[q] == k;
    assert b[1..][q - 1] == k;
  }

  lemma HeadIsElement(s: seq<string>)
    ensures s != [] ==> s[0] in s
  {
  }

  /** Two ascending key sequences with the same elements are equal. */
  lemma {:induction false} AscendingUnique(a: seq<string>, b: seq<string>)
    requires Ascending(a) && Ascending(b)
    requires forall k :: k in a <==> k in b
    ensures a == b
  {
    if a == [] || b == [] {
      if a != [] || b != [] {
        HeadIsElement(a);
        HeadIsElement(b);
        assert false;
      }
    } else {
      AscendingSameHead(a, b);
      forall k
        ensures k in a[1..] <==> k in b[1..]
      {
        if k in a[1..] {
          AscendingTailMember(a, b, k);
        }
        if k in b[1..] {
          AscendingTailMember(b, a, k);
        }
      }
      AscendingUnique(a[1..], b[1..]);
      assert a == [a[0]] + a[1..] && b == [b[0]] + b[1..];
    }
  }

  function Keys(es: seq<Entry>): (ks: seq<string>)
    ensures |ks| == |es| && forall i :: 0 <= i < |es| ==> ks[i] == es[i].0
  {
    seq(|es|, i requires 0 <= i < |es| => es[i].0)
  }

  lemma ListingKeys(es: seq<Entry>, m: map<string, Value>)
    requires IsListingOf(es, m)
    ensures forall k :: k in Keys(es) <==> k in m
  {
    var ks := Keys(es);
    forall k
      ensures k in ks <==> k in m
    {
      if k in ks {
        var i :| 0 <= i < |ks| && ks[i] == k;
        assert es[i] in es;
      }
      if k in m {
        assert (k, m[k]) in es;
        var i :| 0 <= i < |es| && es[i] == (k, m[k]);
        assert ks[i] == k;
      }
    }
  }

  /**
   * A map has exactly one listing in ascending key order: sorting any
   * iteration order of its entries gives the same sequence.
   */
  lemma SortedListingUnique(es: seq<Entry>, m: map<string, Value>)
    requires IsListingOf(es, m) && KeysAscending(es)
    ensures es == SortedListing(m)
  {
    var sl := SortedListing(m);
    ListingKeys(es, m);
    ListingKeys(sl, m);
    AscendingUnique(Keys(es), Keys(sl));
    forall i | 0 <= i < |es|
      ensures es[i] == sl[i]
    {
      assert Keys(es)[i] == Keys(sl)[i];
      assert es[i] in es && sl[i] in sl;
    }
  }

  /** Inserting an entry at the place where its key fits keeps the keys ascending. */
  lemma InsertAscending(s: seq<Entry>, e: Entry, p: nat)
    requires p <= |s| && KeysAscending(s)
    requires forall j :: 0 <= j < p ==> CompareTo(s[j].0, e.0) < 0
    requires p < |s| ==> CompareTo(e.0, s[p].0) < 0
    ensures KeysAscending(s[..p] + [e] + s[p..])
  {
    var r := s[..p] + [e] + s[p..];
    forall i, j | 0 <= i < j < |r|
      ensures CompareTo(r[i].0, r[j].0) < 0
    {
      if j < p {
        assert r[i] == s[i] && r[j] == s[j];
      } else if j == p {
        assert r[i] == s[i] && r[j] == e;
      } else if i < p {
        assert r[i] == s[i] && r[j] == s[j - 1];
      } else if i == p {
        assert r[i] == e && r[j] == s[j - 1];
        if j - 1 > p {
          CompareToTransitive(e.0, s[p].0, s[j - 1].0);
        }
      } else {
        assert r[i] == s[i - 1] && r[j] == s[j - 1];
      }
    }
  }

  /** One step of the sort: `e` placed after every smaller key. */
  method InsertByKey(sorted: seq<Entry>, e: Entry) returns (r: seq<Entry>)
    requires KeysAscending(sorted)
    requires forall j :: 0 <= j < |sorted| ==> sorted[j].0 != e.0
    ensures KeysAscending(r)
    ensures multiset(r) == multiset(sorted) + multiset{e}
  {
    var p := 0;
    while p < |sorted| && CompareTo(sorted[p].0, e.0) < 0
      invariant 0 <= p <= |sorted|
      invariant forall j :: 0 <= j < p ==> CompareTo(sorted[j].0, e.0) < 0
    {
      p := p + 1;
    }
    if p < |sorted| {
      CompareToZero(sorted[p].0, e.0);
      CompareToFlip(sorted[p].0, e.0);
    }
    InsertAscending(sorted, e, p);
    assert sorted == sorted[..p] + sorted[p..];
    r := sorted[..p] + [e] + sorted[p..];
  }

  /**
   * `Collections.sort(infoIds) { o1, o2 -> o1.key.compareTo(o2.key) }` on
   * entries with distinct keys: the result is ascending and a permutation.
   */
  method SortByKey(entries: seq<Entry>) returns (sorted: seq<Entry>)
    requires DistinctKeys(entries)
    ensures KeysAscending(sorted)
    ensures multiset(sorted) == multiset(entries)
  {
    sorted := [];
    for i := 0 to |entries|
      invariant KeysAscending(sorted)
      invariant multiset(sorted) == multiset(entries[..i])
    {
      forall j | 0 <= j < |sorted|
        ensures sorted[j].0 != entries[i].0
      {
        assert sorted[j] in multiset(entries[..i]);
        var q :| 0 <= q < i && entries[..i][q] == sorted[j];
      }
      sorted := InsertByKey(sorted, entries[i]);
      assert entries[..i + 1] == entries[..i] + [entries[i]];
    }
    assert entries[..|entries|] == entries;
  }

  /** The text `key + value` of each entry, concatenated; `None` once a value's `toString()` throws. */
  function JoinEntries(es: seq<Entry>): Option<string>
  {
    if es == [] then Some("")
    else
      var last := es[|es| - 1];
      match JoinEntries(es[..|es| - 1])
      case None => None
      case Some(prefix) =>
        match ValueText(last.1)
        case None => None
        case Some(t) => Some(prefix + last.0 + t)
  }

  /** The joined text fails exactly when some value's `toString()` fails. */
  lemma {:induction false} JoinEntriesFails(es: seq<Entry>)
    ensures JoinEntries(es).None? <==> exists i :: 0 <= i < |es| && ValueText(es[i].1).None?
  {
    if es != [] {
      var n := |es| - 1;
      JoinEntriesFails(es[..n]);
      if JoinEntries(es[..n]).None? {
        var i :| 0 <= i < n && ValueText(es[..n][i].1).None?;
        assert ValueText(es[i].1).None?;
      } else if ValueText(es[n].1).Some? {
        forall i | 0 <= i < |es|
          ensures ValueText(es[i].1).Some?
        {
          if i < n {
            assert es[i] == es[..n][i];
          }
        }
      }
    }
  }

  /** The canonical string of a parameter map, or `None` when building it throws. */
  ghost function CanonicalForm(m: map<string, Value>): Option<string>
  {
    JoinEntries(SortedListing(m))
  }

  /** `ArrayList(paraMap.entries)`: every entry once, in an iteration order nothing fixes. */
  method EntryList(paraMap: map<string, Value>) returns (infoIds: seq<Entry>)
    ensures IsListingOf(infoIds, paraMap)
  {
    infoIds := [];
    var rest := paraMap.Keys;
    while rest != {}
      invariant rest <= paraMap.Keys
      invariant DistinctKeys(infoIds)
      invariant forall e :: e in infoIds ==> e.0 in paraMap && e.0 !in rest && e.1 == paraMap[e.0]
      invariant forall k :: k in paraMap && k !in rest ==> (k, paraMap[k]) in infoIds
      decreases |rest|
    {
      var k :| k in rest;
      infoIds := infoIds + [(k, paraMap[k])];
      rest := rest - {k};
    }
  }

  /** The `StringBuilder` loop: `key + value` of each entry appended in order. */
  method AppendEntries(infoIds: seq<Entry>) returns (r: Option<string>)
    ensures r == JoinEntries(infoIds)
  {
    var buf := "";
    for i := 0 to |infoIds|
      invariant JoinEntries(infoIds[..i]) == Some(buf)
    {
      assert infoIds[..i + 1][..i] == infoIds[..i];
      var value := ValueText(infoIds[i].1);
      if value.None? {
        JoinEntriesFails(infoIds);
        return None;
      }
      buf := buf + infoIds[i].0 + value.value;
    }
    assert infoIds[..|infoIds|] == infoIds;
    r := Some(buf);
  }

  /** A permutation of a listing of `m` is a listing of `m`. */
  lemma PermutedListing(es: seq<Entry>, ps: seq<Entry>, m: map<string, Value>)
    requires IsListingOf(es, m) && multiset(ps) == multiset(es) && DistinctKeys(ps)
    ensures IsListingOf(ps, m)
  {
    forall e
      ensures e in ps <==> e in es
    {
      assert e in ps <==> e in multiset(ps);
      assert e in es <==> e in multiset(es);
    }
  }

  /**
   * `formatUrlMap(paraMap)`: the entries, copied in the map's iteration order,
   * sorted by key and joined as `key + value`; `None` (Kotlin `null`) when a
   * value's `toString()` throws. Whatever the iteration order, the result is
   * the map's canonical form.
   */
  method FormatUrlMap(paraMap: map<string, Value>) returns (r: Option<string>)
    ensures r == CanonicalForm(paraMap)
  {
    var infoIds := EntryList(paraMap);
    ghost var unsorted := infoIds;
    infoIds := SortByKey(infoIds);
    AscendingDistinct(infoIds);
    PermutedListing(unsorted, infoIds, paraMap);
    SortedListingUnique(infoIds, paraMap);
    r := AppendEntries(infoIds);
  }

  /** The canonical string is `key + value` over the entries in ascending key order. */
  lemma CanonicalFormOfListing(es: seq<Entry>, m: map<string, Value>)
    requires IsListingOf(es, m) && KeysAscending(es)
    ensures CanonicalForm(m) == JoinEntries(es)
  {
    SortedListingUnique(es, m);
  }

  /** An empty parameter map gives the empty canonical string. */
  lemma CanonicalFormEmpty()
    ensures CanonicalForm(map[]) == Some("")
  {
    assert SortedKeys({}) == [];
  }

  /** Canonicalisation fails exactly when some value's `toString()` throws. */
  lemma CanonicalFormFails(m: map<string, Value>)
    ensures CanonicalForm(m).None? <==> exists k :: k in m && ValueText(m[k]).None?
  {
    var es := SortedListing(m);
    JoinEntriesFails(es);
    if exists k :: k in m && ValueText(m[k]).None? {
      var k :| k in m && ValueText(m[k]).None?;
      assert (k, m[k]) in es;
    }
    if exists i :: 0 <= i < |es| && ValueText(es[i].1).None? {
      var i :| 0 <= i < |es| && ValueText(es[i].1).None?;
      assert es[i] in es;
    }
  }

  lemma JoinSingle(k: string, v: string)
    ensures JoinEntries([(k, Text(v))]) == Some(k + v)
  {
    assert [(k, Text(v))][..0] == [];
    assert JoinEntries([]) == Some("");
    assert "" + k + v == k + v;
  }

  /** A one-entry map canonicalises to its key followed by its value. */
  lemma CanonicalFormSingle(k: string, v: string)
    ensures CanonicalForm(map[k := Text(v)]) == Some(k + v)
  {
    CanonicalFormOfListing([(k, Text(v))], map[k := Text(v)]);
    JoinSingle(k, v);
  }

  /** With no delimiter, different maps can share a canonical string: `{"ab": "c"}` and `{"a": "bc"}`. */
  lemma CanonicalFormNotInjective()
    ensures map["ab" := Text("c")] != map["a" := Text("bc")]
    ensures CanonicalForm(map["ab" := Text("c")]) == Some("abc")
    ensures CanonicalForm(map["a" := Text("bc")]) == Some("abc")
  {
    assert "ab" in map["ab" := Text("c")];
    CanonicalFormSingle("ab", "c");
    CanonicalFormSingle("a", "bc");
    assert "ab" + "c" == "abc" && "a" + "bc" == "abc";
  }

  /** One-character keys in the Basic Multilingual Plane compare by their code. */
  lemma CompareSingleChars(c: char, d: char)
    requires c < d && d as int < 0x1_0000
    ensures CompareTo([c], [d]) < 0
  {
    assert [c][1..] == [] && [d][1..] == [];
    assert CodeUnits([c]) == [c as int] && CodeUnits([d]) == [d as int];
  }

  /** Two entries, listed in ascending key order, join to `k1 + v1 + k2 + v2`. */
  lemma JoinPair(k1: string, v1: string, k2: string, v2: string)
    ensures JoinEntries([(k1, Text(v1)), (k2, Text(v2))]) == Some(k1 + v1 + k2 + v2)
  {
    var es := [(k1, Text(v1)), (k2, Text(v2))];
    assert es[..1] == [(k1, Text(v1))];
    JoinSingle(k1, v1);
  }

  /** A two-entry map canonicalises to its smaller key's entry followed by the other's. */
  lemma CanonicalFormPair(k1: string, v1: string, k2: string, v2: string)
    requires CompareTo(k1, k2) < 0
    ensures CanonicalForm(map[k2 := Text(v2), k1 := Text(v1)]) == Some(k1 + v1 + k2 + v2)
  {
    var m := map[k2 := Text(v2), k1 := Text(v1)];
    var es := [(k1, Text(v1)), (k2, Text(v2))];
    CompareToZero(k1, k2);
    assert IsListingOf(es, m);
    CanonicalFormOfListing(es, m);
    JoinPair(k1, v1, k2, v2);
  }

  /** `{"b": "2", "a": "1"}` canonicalises to "a1b2", whatever the map's iteration order. */
  lemma CanonicalFormExample()
    ensures CanonicalForm(map["b" := Text("2"), "a" := Text("1")]) == Some("a1b2")
  {
    CompareSingleChars('a', 'b');
    CanonicalFormPair("a", "1", "b", "2");
    ConcatFour('a', '1', 'b', '2');
  }

  /** Four one-character texts concatenate to the four-character text. */
  lemma ConcatFour(a: char, b: char, c: char, d: char)
    ensures [a] + [b] + [c] + [d] == [a, b, c, d]
  {
  }

  // ---------------------------------------------------------------------------
  // getSign

  /** The characters the signer deletes before hashing: '[', ']' and '"'. */
  predicate IsNoise(c: char)
  {
    c == '[' || c == ']' || c == '"'
  }

  /** `s.replace(Regex(c), "")` for a regex that matches the single character `c`. */
  function RemoveAll(s: string, c: char): string
  {
    if s == [] then []
    else if s[0] == c then RemoveAll(s[1..], c)
    else [s[0]] + RemoveAll(s[1..], c)
  }

  /** `data.replace("\\[".toRegex(), "").replace("]".toRegex(), "").replace("\"".toRegex(), "")`. */
  function StripNoise(s: string): string
  {
    RemoveAll(RemoveAll(RemoveAll(s, '['), ']'), '"')
  }

  /** A single pass that keeps every character except '[', ']' and '"', in order. */
  function KeepSignificant(s: string): string
  {
    if s == [] then []
    else if IsNoise(s[0]) then KeepSignificant(s[1..])
    else [s[0]] + KeepSignificant(s[1..])
  }

  lemma {:induction false} KeepSignificantConcat(a: string, b: string)
    ensures KeepSignificant(a + b) == KeepSignificant(a) + KeepSignificant(b)
  {
    if a == [] {
      assert a + b == b;
    } else {
      assert (a + b)[0] == a[0] && (a + b)[1..] == a[1..] + b;
      KeepSignificantConcat(a[1..], b);
    }
  }

  /** The three successive replacements delete exactly the noise characters, keeping the order of the rest. */
  lemma {:induction false} StripNoiseKeepsOrder(s: string)
    ensures StripNoise(s) == KeepSignificant(s)
    ensures KeepSignificant(s) == [] <==> forall i :: 0 <= i < |s| ==> IsNoise(s[i])
  {
    if s != [] {
      StripNoiseKeepsOrder(s[1..]);
    }
  }

  /** After stripping, no '[', ']' or '"' is left, and stripping again changes nothing. */
  lemma {:induction false} KeepSignificantClean(s: string)
    ensures forall i :: 0 <= i < |KeepSignificant(s)| ==> !IsNoise(KeepSignificant(s)[i])
    ensures KeepSignificant(KeepSignificant(s)) == KeepSignificant(s)
  {
    if s != [] {
      KeepSignificantClean(s[1..]);
    }
  }

  /** Text without noise characters is left alone. */
  lemma {:induction false} KeepSignificantNoNoise(s: string)
    requires forall i :: 0 <= i < |s| ==> !IsNoise(s[i])
    ensures KeepSignificant(s) == s
  {
    if s != [] {
      KeepSignificantNoNoise(s[1..]);
    }
  }

  /** Kotlin's `String + String?`: a null operand is appended as the text "null". */
  function NullableText(s: Option<string>): string
  {
    match s
    case Some(t) => t
    case None => "null"
  }

  /** The text `getSign` hashes before stripping: Base64(time) + token + secret + canonical. */
  function SigningInput(time: string, token: string, secret: string, url: Option<string>): string
  {
    Base64.Encode(Utf8(time)) + token + secret + NullableText(url)
  }

  /** A 32-character lower-case hexadecimal digest. */
  type Md5Hex = s: string | |s| == 32 && forall i :: 0 <= i < |s| ==> ('0' <= s[i] <= '9' || 'a' <= s[i] <= 'f')
    witness "00000000000000000000000000000000"

  /**
   * `OneHttpManager.token()`, `OneHttpManager.apiSecret` and
   * `MD5HexHelper.toMD5`, as values fixed for one request.
   */
  datatype Signer = Signer(token: string, apiSecret: string -> string, md5: string -> Md5Hex)

  /** The signature of a parameter map, for a timestamp text and a path. */
  ghost function Signature(paraMap: map<string, Value>, time: string, path: string, signer: Signer): Md5Hex
  {
    signer.md5(StripNoise(SigningInput(time, signer.token, signer.apiSecret(path), CanonicalForm(paraMap))))
  }

  /** `getSign(paraMap, time, path)`. */
  method GetSign(paraMap: map<string, Value>, time: string, path: string, signer: Signer) returns (sign: Md5Hex)
    ensures sign == Signature(paraMap, time, path, signer)
  {
    var url := FormatUrlMap(paraMap);
    var data := Base64.Encode(Utf8(time)) + signer.token + signer.apiSecret(path) + NullableText(url);
    sign := signer.md5(RemoveAll(RemoveAll(RemoveAll(data, '['), ']'), '"'));
  }

  /**
   * The hashed text is the Base64 of the time, untouched, then the token, the
   * secret and the canonical string, each with '[', ']' and '"' deleted.
   */
  lemma StrippedSigningInput(time: string, token: string, secret: string, url: Option<string>)
    ensures StripNoise(SigningInput(time, token, secret, url))
         == Base64.Encode(Utf8(time)) + KeepSignificant(token) + KeepSignificant(secret)
            + KeepSignificant(NullableText(url))
  {
    var b := Base64.Encode(Utf8(time));
    StripNoiseKeepsOrder(SigningInput(time, token, secret, url));
    KeepSignificantConcat(b + token + secret, NullableText(url));
    KeepSignificantConcat(b + token, secret);
    KeepSignificantConcat(b, token);
    assert forall i :: 0 <= i < |b| ==> Base64.IsEncodedChar(b[i]);
    KeepSignificantNoNoise(b);
  }

  /** When canonicalisation fails, the signing input ends in the literal text "null". */
  lemma FailedCanonicalFormSignsNull(paraMap: map<string, Value>, time: string, token: string, secret: string)
    requires exists k :: k in paraMap && ValueText(paraMap[k]).None?
    ensures SigningInput(time, token, secret, CanonicalForm(paraMap))
         == Base64.Encode(Utf8(time)) + token + secret + "null"
  {
    CanonicalFormFails(paraMap);
  }

  // ---------------------------------------------------------------------------
  // The timestamp and signature headers

  /** `String.format("%010d", System.currentTimeMillis() / 1000)`. */
  function TimestampText(currentTimeMillis: Int64): string
  {
    FormatZeroPadded(TruncatingDiv(currentTimeMillis, 1000), 10)
  }

  /**
   * For a clock at or after the epoch, the timestamp is the seconds in decimal,
   * zero-padded to ten digits, and reads back as the seconds.
   */
  lemma TimestampTextShape(currentTimeMillis: Int64)
    requires currentTimeMillis >= 0
    ensures AllDigits(TimestampText(currentTimeMillis))
    ensures |TimestampText(currentTimeMillis)| >= 10
    ensures DecimalValue(TimestampText(currentTimeMillis)) == currentTimeMillis / 1000
  {
    FormatZeroPaddedRoundTrip(currentTimeMillis / 1000, 10);
  }

  /** A header name and value. */
  type Header = (string, string)

  /** The value of the first header with the given name, if any. */
  function HeaderValue(headers: seq<Header>, name: string): Option<string>
  {
    if headers == [] then None
    else if headers[0].0 == name then Some(headers[0].1)
    else HeaderValue(headers[1..], name)
  }

  /** The value of the first header with a name is the one `HeaderValue` finds. */
  lemma {:induction false} FirstHeader(headers: seq<Header>, i: nat, name: string)
    requires i < |headers| && headers[i].0 == name
    requires forall j :: 0 <= j < i ==> headers[j].0 != name
    ensures HeaderValue(headers, name) == Some(headers[i].1)
  {
    if i > 0 {
      FirstHeader(headers[1..], i - 1, name);
    }
  }

  /** The names of the five headers the interceptor adds first, in order. */
  const SigningHeaderNames: seq<string> := ["token", "timestamp", "osName", "content-type", "signature"]

  /** The five header names are pairwise distinct. */
  lemma SigningHeaderNamesDistinct()
    ensures forall i, j :: 0 <= i < j < 5 ==> SigningHeaderNames[i] != SigningHeaderNames[j]
  {
    var n := SigningHeaderNames;
    assert |n[0]| == 5 && |n[1]| == 9 && |n[2]| == 6 && |n[3]| == 12 && |n[4]| == 9;
    assert n[1][0] != n[4][0];
  }

  /** The five signing headers, in the order the interceptor adds them. */
  function SigningHeaderList(token: string, time: string, sign: string): seq<Header>
  {
    var n := SigningHeaderNames;
    [(n[0], token), (n[1], time), (n[2], "android"), (n[3], "application/json; charset=utf-8"), (n[4], sign)]
  }

  /** Each signing header is found under its own name. */
  lemma SigningHeaderLookup(token: string, time: string, sign: string)
    ensures var headers := SigningHeaderList(token, time, sign);
      && HeaderValue(headers, "token") == Some(token)
      && HeaderValue(headers, "timestamp") == Some(time)
      && HeaderValue(headers, "osName") == Some("android")
      && HeaderValue(headers, "content-type") == Some("application/json; charset=utf-8")
      && HeaderValue(headers, "signature") == Some(sign)
  {
    var headers := SigningHeaderList(token, time, sign);
    SigningHeaderNamesDistinct();
    FirstHeader(headers, 0, SigningHeaderNames[0]);
    FirstHeader(headers, 1, SigningHeaderNames[1]);
    FirstHeader(headers, 2, SigningHeaderNames[2]);
    FirstHeader(headers, 3, SigningHeaderNames[3]);
    FirstHeader(headers, 4, SigningHeaderNames[4]);
  }

  /**
   * The headers the interceptor adds first: `token`, `timestamp`, `osName`,
   * `content-type` and `signature`, with one time text for both the
   * `timestamp` header and the signature.
   */
  method SigningHeaders(params: map<string, Value>, currentTimeMillis: Int64, path: string, signer: Signer)
    returns (headers: seq<Header>)
    ensures |headers| == 5
    ensures HeaderValue(headers, "token") == Some(signer.token)
    ensures HeaderValue(headers, "timestamp") == Some(TimestampText(currentTimeMillis))
    ensures HeaderValue(headers, "osName") == Some("android")
    ensures HeaderValue(headers, "content-type") == Some("application/json; charset=utf-8")
    ensures HeaderValue(headers, "signature")
         == Some(Signature(params, HeaderValue(headers, "timestamp").value, path, signer))
  {
    var time := TimestampText(currentTimeMillis);
    var sign := GetSign(params, time, path, signer);
    headers := SigningHeaderList(signer.token, time, sign);
    SigningHeaderLookup(signer.token, time, sign);
  }
}
