/**
 * The decisions in `DeviceUtils`: which of two hardware identifiers to report,
 * how the brand and model names are cleaned, and how the IMEI or MEID is chosen
 * from what the platform reports at each SDK level. Every platform read (`Build`,
 * `TelephonyManager`, `SystemProperties`) is an explicit input.
 */
module DeviceUtils {
  import opened Wrappers
  import opened JvmText

  /** `Build.VERSION_CODES.LOLLIPOP`, `O` and `Q`. */
  const Lollipop := 21
  const Oreo := 26
  const Q := 29

  /** The shortest IMEI kept, and the length of a MEID. */
  const ImeiMinLength := 15
  const MeidLength := 14

  // ---------------------------------------------------------------------------
  // getMinOne

  /**
   * `getMinOne(s0, s1)`: "" when both are null or empty, the non-empty one when
   * only one is, and otherwise the smaller by `compareTo`, `s0` on a tie. The
   * source declares a nullable result, but no path returns null.
   */
  function GetMinOne(s0: Option<string>, s1: Option<string>): string
  {
    var empty0 := IsNullOrEmpty(s0);
    var empty1 := IsNullOrEmpty(s1);
    if empty0 && empty1 then ""
    else if !empty0 && !empty1 then
      (if CompareTo(s0.value, s1.value) <= 0 then s0.value else s1.value)
    else if !empty0 then s0.value
    else s1.value
  }

  /**
   * `getMinOne` returns the least non-empty argument: "" exactly when both are
   * null or empty, otherwise one of the non-empty arguments that no non-empty
   * argument precedes.
   */
  lemma GetMinOneIsLeast(s0: Option<string>, s1: Option<string>)
    ensures GetMinOne(s0, s1) == "" <==> IsNullOrEmpty(s0) && IsNullOrEmpty(s1)
    ensures GetMinOne(s0, s1) != "" ==>
      (!IsNullOrEmpty(s0) && GetMinOne(s0, s1) == s0.value) ||
      (!IsNullOrEmpty(s1) && GetMinOne(s0, s1) == s1.value)
    ensures !IsNullOrEmpty(s0) ==> CompareTo(GetMinOne(s0, s1), s0.value) <= 0
    ensures !IsNullOrEmpty(s1) ==> CompareTo(GetMinOne(s0, s1), s1.value) <= 0
  {
    if !IsNullOrEmpty(s0) {
      CompareToZero(s0.value, s0.value);
    }
    if !IsNullOrEmpty(s1) {
      CompareToZero(s1.value, s1.value);
    }
    if !IsNullOrEmpty(s0) && !IsNullOrEmpty(s1) {
      CompareToFlip(s0.value, s1.value);
    }
  }

  /** The order of the two arguments does not matter: a tie means equal text. */
  lemma GetMinOneSymmetric(s0: Option<string>, s1: Option<string>)
    ensures GetMinOne(s0, s1) == GetMinOne(s1, s0)
  {
    if !IsNullOrEmpty(s0) && !IsNullOrEmpty(s1) {
      CompareToFlip(s0.value, s1.value);
      CompareToZero(s0.value, s1.value);
    }
  }

  // ---------------------------------------------------------------------------
  // getModel / getBrand

  /** A character of the Java regex class `\s`: space, \t, \n, \x0B, \f, \r. */
  predicate IsRegexSpace(c: char)
  {
    c == ' ' || c == '\t' || c == '\n' || c == '\U{B}' || c == '\U{C}' || c == '\r'
  }

  /** The characters `trim { it <= ' ' }` removes from either end. */
  predicate IsTrimmable(c: char)
  {
    c <= ' '
  }

  /** `s` without its leading characters at or below ' '. */
  function TrimStart(s: string): (t: string)
    ensures t == [] || !IsTrimmable(t[0])
    ensures |t| <= |s| && t == s[|s| - |t|..]
    ensures forall i :: 0 <= i < |s| - |t| ==> IsTrimmable(s[i])
  {
    if s != [] && IsTrimmable(s[0]) then TrimStart(s[1..]) else s
  }

  /** `s` without its trailing characters at or below ' '. */
  function TrimEnd(s: string): (t: string)
    ensures t == [] || !IsTrimmable(t[|t| - 1])
    ensures |t| <= |s| && t == s[..|t|]
    ensures forall i :: |t| <= i < |s| ==> IsTrimmable(s[i])
  {
    if s != [] && IsTrimmable(s[|s| - 1]) then TrimEnd(s[..|s| - 1]) else s
  }

  /** `s.trim { it <= ' ' }`. */
  function Trim(s: string): string
  {
    TrimEnd(TrimStart(s))
  }

  /** `s.replace("\\s*".toRegex(), "")`: every `\s` character is deleted. */
  function RemoveSpaces(s: string): (t: string)
    ensures forall i :: 0 <= i < |t| ==> !IsRegexSpace(t[i])
    ensures |t| <= |s|
  {
    if s == [] then []
    else if IsRegexSpace(s[0]) then RemoveSpaces(s[1..])
    else [s[0]] + RemoveSpaces(s[1..])
  }

  /** `getModel()` / `getBrand()` applied to `Build.MODEL` / `Build.BRAND`. */
  function CleanBuildName(raw: Option<string>): string
  {
    match raw
    case None => ""
    case Some(s) => RemoveSpaces(Trim(s))
  }

  function GetModel(model: Option<string>): string
  {
    CleanBuildName(model)
  }

  function GetBrand(brand: Option<string>): string
  {
    CleanBuildName(brand)
  }

  lemma {:induction false} RemoveSpacesKeepsFirst(s: string)
    requires s != [] && !IsTrimmable(s[0])
    ensures RemoveSpaces(s) != [] && RemoveSpaces(s)[0] == s[0]
  {
  }

  lemma {:induction false} RemoveSpacesKeepsLast(s: string)
    requires s != [] && !IsTrimmable(s[|s| - 1])
    ensures RemoveSpaces(s) != [] && RemoveSpaces(s)[|RemoveSpaces(s)| - 1] == s[|s| - 1]
  {
    if |s| > 1 {
      RemoveSpacesKeepsLast(s[1..]);
    }
  }

  lemma {:induction false} RemoveSpacesIdentity(s: string)
    requires forall i :: 0 <= i < |s| ==> !IsRegexSpace(s[i])
    ensures RemoveSpaces(s) == s
  {
    if s != [] {
      RemoveSpacesIdentity(s[1..]);
    }
  }

  /**
   * Deleting the `\s` characters works piece by piece: a text's result is its
   * parts' results in order, and a single character is kept unless it is `\s`.
   */
  lemma {:induction false} RemoveSpacesConcat(a: string, b: string)
    ensures RemoveSpaces(a + b) == RemoveSpaces(a) + RemoveSpaces(b)
    ensures forall c :: RemoveSpaces([c]) == if IsRegexSpace(c) then [] else [c]
  {
    if a == [] {
      assert a + b == b;
    } else {
      assert (a + b)[0] == a[0] && (a + b)[1..] == a[1..] + b;
      RemoveSpacesConcat(a[1..], b);
    }
  }

  /** A name with no `\s` and no character at or below ' ' at either end is left as it is. */
  lemma CleanBuildNameOfClean(s: string)
    requires forall i :: 0 <= i < |s| ==> !IsRegexSpace(s[i])
    requires s == [] || (!IsTrimmable(s[0]) && !IsTrimmable(s[|s| - 1]))
    ensures CleanBuildName(Some(s)) == s
  {
    assert TrimStart(s) == s;
    assert TrimEnd(s) == s;
    RemoveSpacesIdentity(s);
  }

  /**
   * The cleaned name holds no `\s` character and neither begins nor ends with a
   * character at or below ' '; null becomes "".
   */
  lemma CleanBuildNameShape(raw: Option<string>)
    ensures raw.None? ==> CleanBuildName(raw) == ""
    ensures forall i :: 0 <= i < |CleanBuildName(raw)| ==> !IsRegexSpace(CleanBuildName(raw)[i])
    ensures var r := CleanBuildName(raw);
      r == [] || (!IsTrimmable(r[0]) && !IsTrimmable(r[|r| - 1]))
  {
    if raw.Some? {
      var t := Trim(raw.value);
      if t != [] {
        assert TrimStart(raw.value) != [];
        RemoveSpacesKeepsFirst(t);
        RemoveSpacesKeepsLast(t);
      }
    }
  }

  /** Cleaning a cleaned name changes nothing. */
  lemma CleanBuildNameIdempotent(raw: Option<string>)
    ensures CleanBuildName(Some(CleanBuildName(raw))) == CleanBuildName(raw)
  {
    CleanBuildNameShape(raw);
    CleanBuildNameOfClean(CleanBuildName(raw));
  }

  // ---------------------------------------------------------------------------
  // getImeiOrMeid

  /** What `TelephonyManager` reports; `None` stands for a null return. */
  datatype Telephony = Telephony(
    imei0: Option<string>,         // getImei(0), API 26 and later
    imei1: Option<string>,         // getImei(1)
    meid0: Option<string>,         // getMeid(0)
    meid1: Option<string>,         // getMeid(1)
    deviceId: Option<string>,      // getDeviceId()
    gsmDeviceId: Option<string>,   // getDeviceId(PHONE_TYPE_GSM), reached by reflection
    cdmaDeviceId: Option<string>)  // getDeviceId(PHONE_TYPE_CDMA), reached by reflection

  /** The system property read for the IMEI or the MEID. */
  function PropertyKey(isImei: bool): string
  {
    if isImei then "ril.gsm.imei" else "ril.cdma.meid"
  }

  /** Before API 26 an IMEI must have at least 15 units; a MEID candidate of exactly 14 is dropped. */
  predicate Rejected(isImei: bool, id: string)
  {
    if isImei then Length(id) < ImeiMinLength else Length(id) == MeidLength
  }

  /** The API 21-25 filter on one candidate: a rejected id becomes "". */
  function Blank(isImei: bool, id: Option<string>): Option<string>
  {
    if id.Some? && Rejected(isImei, id.value) then Some("") else id
  }

  /**
   * `getImeiOrMeid(isImei)` as a value. `systemProperty` is
   * `getSystemPropertyByReflect` ("" when the reflective call fails);
   * `tm.gsmDeviceId` / `tm.cdmaDeviceId` are `None` both for a null return and
   * for a failed reflective call, which the source then leaves as "": both read
   * as empty below.
   */
  function ImeiOrMeid(isImei: bool, sdkInt: int, tm: Telephony, systemProperty: string -> string): string
  {
    if sdkInt >= Q then ""
    else if sdkInt >= Oreo then
      (if isImei then GetMinOne(tm.imei0, tm.imei1) else GetMinOne(tm.meid0, tm.meid1))
    else if sdkInt >= Lollipop then
      var ids := systemProperty(PropertyKey(isImei));
      if ids != [] then
        var idArr := Split(ids, ',');
        if |idArr| == 2 then GetMinOne(Some(idArr[0]), Some(idArr[1])) else idArr[0]
      else
        var slotId := if isImei then tm.gsmDeviceId else tm.cdmaDeviceId;
        GetMinOne(Blank(isImei, tm.deviceId), Blank(isImei, slotId))
    else
      match tm.deviceId
      case Some(deviceId) =>
        if (if isImei then Length(deviceId) >= ImeiMinLength else Length(deviceId) == MeidLength)
        then deviceId
        else ""
      case None => ""
  }

  /** `getImeiOrMeid(isImei)`, reassigning `id0` and `id1` as the source does. */
  method GetImeiOrMeid(isImei: bool, sdkInt: int, tm: Telephony, systemProperty: string -> string)
    returns (id: string)
    ensures id == ImeiOrMeid(isImei, sdkInt, tm, systemProperty)
  {
    if sdkInt >= Q {
      return "";
    }
    if sdkInt >= Oreo {
      if isImei {
        id := GetMinOne(tm.imei0, tm.imei1);
      } else {
        id := GetMinOne(tm.meid0, tm.meid1);
      }
      return;
    } else if sdkInt >= Lollipop {
      var ids := systemProperty(PropertyKey(isImei));
      if ids != [] {
        var idArr := Split(ids, ',');
        if |idArr| == 2 {
          id := GetMinOne(Some(idArr[0]), Some(idArr[1]));
        } else {
          id := idArr[0];
        }
        return;
      }
      var id0 := tm.deviceId;
      var id1: Option<string> := Some("");
      id1 := if isImei then tm.gsmDeviceId else tm.cdmaDeviceId;
      if isImei {
        if id0.Some? && Length(id0.value) < ImeiMinLength {
          id0 := Some("");
        }
        if id1.Some? && Length(id1.value) < ImeiMinLength {
          id1 := Some("");
        }
      } else {
        if id0.Some? && Length(id0.value) == MeidLength {
          id0 := Some("");
        }
        if id1.Some? && Length(id1.value) == MeidLength {
          id1 := Some("");
        }
      }
      id := GetMinOne(id0, id1);
      return;
    } else {
      var deviceId := tm.deviceId;
      if isImei {
        if deviceId.Some? && Length(deviceId.value) >= ImeiMinLength {
          return deviceId.value;
        }
      } else {
        if deviceId.Some? && Length(deviceId.value) == MeidLength {
          return deviceId.value;
        }
      }
    }
    return "";
  }

  /** From API 29 on, no identifier is reported. */
  lemma ImeiOrMeidFromQ(isImei: bool, sdkInt: int, tm: Telephony, systemProperty: string -> string)
    requires sdkInt >= Q
    ensures ImeiOrMeid(isImei, sdkInt, tm, systemProperty) == ""
  {
  }

  /**
   * API 21-25 with a non-empty system property: two comma-separated parts give
   * the least non-empty part, any other count gives the first part.
   */
  lemma ImeiOrMeidFromProperty(isImei: bool, sdkInt: int, tm: Telephony, systemProperty: string -> string)
    requires Lollipop <= sdkInt < Oreo
    requires systemProperty(PropertyKey(isImei)) != []
    ensures var parts := Split(systemProperty(PropertyKey(isImei)), ',');
      var r := ImeiOrMeid(isImei, sdkInt, tm, systemProperty);
      (|parts| == 2 ==> r == GetMinOne(Some(parts[0]), Some(parts[1]))) &&
      (|parts| != 2 ==> r == parts[0]) &&
      (exists i :: 0 <= i < |parts| && r == parts[i])
  {
    var parts := Split(systemProperty(PropertyKey(isImei)), ',');
    if |parts| == 2 {
      GetMinOneIsLeast(Some(parts[0]), Some(parts[1]));
    }
  }

  /**
   * API 21-25 without the property: the IMEI reported is "" or has at least 15
   * units, and the MEID reported never has exactly 14.
   */
  lemma ImeiOrMeidFallbackFilters(isImei: bool, sdkInt: int, tm: Telephony, systemProperty: string -> string)
    requires Lollipop <= sdkInt < Oreo
    requires systemProperty(PropertyKey(isImei)) == []
    ensures var r := ImeiOrMeid(isImei, sdkInt, tm, systemProperty);
      r == "" || !Rejected(isImei, r)
    ensures var r := ImeiOrMeid(isImei, sdkInt, tm, systemProperty);
      var slotId := if isImei then tm.gsmDeviceId else tm.cdmaDeviceId;
      && (r != "" <==> Accepted(isImei, tm.deviceId) || Accepted(isImei, slotId))
      && (r != "" ==> (Accepted(isImei, tm.deviceId) && r == tm.deviceId.value) ||
                      (Accepted(isImei, slotId) && r == slotId.value))
      && (Accepted(isImei, tm.deviceId) ==> CompareTo(r, tm.deviceId.value) <= 0)
      && (Accepted(isImei, slotId) ==> CompareTo(r, slotId.value) <= 0)
  {
    var slotId := if isImei then tm.gsmDeviceId else tm.cdmaDeviceId;
    BlankKeepsAccepted(isImei, tm.deviceId);
    BlankKeepsAccepted(isImei, slotId);
    GetMinOneIsLeast(Blank(isImei, tm.deviceId), Blank(isImei, slotId));
  }

  /** A candidate the API 21-25 fallback may return: present, non-empty and not rejected. */
  predicate Accepted(isImei: bool, id: Option<string>)
  {
    id.Some? && id.value != "" && !Rejected(isImei, id.value)
  }

  /** The filter empties exactly the candidates that are not accepted and keeps the others. */
  lemma BlankKeepsAccepted(isImei: bool, id: Option<string>)
    ensures !IsNullOrEmpty(Blank(isImei, id)) <==> Accepted(isImei, id)
    ensures Accepted(isImei, id) ==> Blank(isImei, id) == id
  {
  }

  /**
   * Before API 21 the device id is reported only as an IMEI of at least 15
   * units or a MEID of exactly 14; anything else gives "".
   */
  lemma ImeiOrMeidBeforeLollipop(isImei: bool, sdkInt: int, tm: Telephony, systemProperty: string -> string)
    requires sdkInt < Lollipop
    ensures var r := ImeiOrMeid(isImei, sdkInt, tm, systemProperty);
      (r == "" || r == tm.deviceId.value) &&
      (isImei ==> (r != "" <==> tm.deviceId.Some? && Length(tm.deviceId.value) >= ImeiMinLength)) &&
      (!isImei ==> (r != "" <==> tm.deviceId.Some? && Length(tm.deviceId.value) == MeidLength))
  {
  }

  /**
   * The two MEID rules disagree: a 14-unit MEID from `getDeviceId()` is the
   * answer before API 21 and is blanked on API 21-25.
   */
  lemma MeidRulesDisagree(meid: string, tm: Telephony, systemProperty: string -> string)
    requires Length(meid) == MeidLength
    requires tm.deviceId == Some(meid) && tm.cdmaDeviceId.None?
    requires systemProperty(PropertyKey(false)) == []
    ensures ImeiOrMeid(false, Lollipop - 1, tm, systemProperty) == meid
    ensures ImeiOrMeid(false, Lollipop, tm, systemProperty) == ""
  {
  }
}
