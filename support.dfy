/** support_methods.py: size strings such as "500G", the binary unit table,
    the free-space query and the plain fstab lookup. */
module SupportMethods {
  import opened PyBase

  /** The unit table of convert_size_to_bytes and get_available_space. */
  const Units: map<string, nat> :=
    map["K" := 1024, "M" := 1024 * 1024, "G" := 1024 * 1024 * 1024, "T" := 1024 * 1024 * 1024 * 1024]

  /** The message parse_size_unit raises with. */
  const SizeFormatMessage: string := "Invalid size/unit format. Example format: '500G'"

  function LStrip(s: string): (r: string)
    ensures |r| <= |s| && r == s[|s| - |r|..]
    ensures r == "" || !IsSpace(r[0])
    decreases |s|
  {
    if |s| > 0 && IsSpace(s[0]) then LStrip(s[1..]) else s
  }

  function RStrip(s: string): (r: string)
    ensures |r| <= |s| && r == s[..|r|]
    ensures r == "" || !IsSpace(r[|r| - 1])
    decreases |s|
  {
    if |s| > 0 && IsSpace(s[|s| - 1]) then RStrip(s[..|s| - 1]) else s
  }

  /** str.strip() with no argument. */
  function Strip(s: string): string
  {
    RStrip(LStrip(s))
  }

  /** Digits where a single underscore may stand between two digits, the
      spelling int() accepts for a decimal literal. */
  predicate DigitGroups(s: string)
  {
    && |s| > 0 && IsDigit(s[0])
    && DigitsOrUnderscores(s)
    && forall k :: 0 <= k < |s| && s[k] == '_' ==> k + 1 < |s| && IsDigit(s[k + 1])
  }

  predicate DigitsOrUnderscores(s: string)
  {
    forall k :: 0 <= k < |s| ==> IsDigit(s[k]) || s[k] == '_'
  }

  function DropUnderscores(s: string): (r: string)
    requires DigitsOrUnderscores(s)
    ensures AllDigits(r)
    decreases |s|
  {
    if |s| == 0 then ""
    else (if s[0] == '_' then "" else [s[0]]) + DropUnderscores(s[1..])
  }

  /** `int(s)` on a string: surrounding whitespace, then an optional sign,
      then decimal digits grouped by single underscores; None stands for
      the ValueError int() raises. */
  function ParseInt(s: string): Option<int>
  {
    ParseSigned(Strip(s))
  }

  /** `int(t)` once the whitespace is stripped. */
  function ParseSigned(t: string): Option<int>
  {
    if |t| > 0 && (t[0] == '+' || t[0] == '-') && DigitGroups(t[1..]) then
      var v: int := DigitsValue(DropUnderscores(t[1..]));
      Some(if t[0] == '-' then -v else v)
    else if DigitGroups(t) then
      Some(DigitsValue(DropUnderscores(t)))
    else None
  }

  /** parse_size_unit: the last character is the unit and the rest must
      read as an integer. An empty string fails at `input_str[-1]` with an
      IndexError, which the `except ValueError` does not catch. */
  function ParseSizeUnit(s: string): (r: Result<(int, string)>)
    ensures |s| == 0 ==> r == Err(IndexError)
    ensures |s| > 0 ==> (r.Ok? <==> ParseInt(s[..|s| - 1]).Some?)
    ensures r.Ok? ==> r.value.1 == [s[|s| - 1]] && Some(r.value.0) == ParseInt(s[..|s| - 1])
    ensures |s| > 0 && r.Err? ==> r.error == ValueError(SizeFormatMessage)
  {
    if |s| == 0 then Err(IndexError)
    else
      match ParseInt(s[..|s| - 1])
      case None => Err(ValueError(SizeFormatMessage))
      case Some(n) => Ok((n, [s[|s| - 1]]))
  }

  /** convert_size_to_bytes. */
  function ConvertSizeToBytes(size: int, unit: string): Result<int>
  {
    if unit in Units then Ok(size * Units[unit])
    else Err(ValueError("Invalid unit: " + unit))
  }

  /** valid_unit (its unused `self` parameter dropped). */
  function ValidUnit(unit: string): Result<bool>
  {
    if unit in ["K", "M", "G", "T"] then Ok(true)
    else Err(ValueError("Invalid unit: " + unit + ". Valid units are K, M, G, T"))
  }

  /** get_available_space with the free byte count of the file system as
      input (None when the disk-usage query raises, which becomes a
      ValueError). With a known unit the free count is MULTIPLIED by the
      unit's factor, as written. */
  function GetAvailableSpace(free: Option<nat>, unit: Option<string>): Result<int>
  {
    match free
    case None => Err(ValueError("Error retrieving disk usage"))
    case Some(bytes) =>
      if Truthy(unit) && unit.value in Units then Ok(bytes * Units[unit.value])
      else Ok(bytes)
  }

  /** The conversion get_available_space evidently means: the free space
      expressed in the unit (whole units, rounded down). */
  function AvailableSpaceIn(free: nat, unit: Option<string>): (r: nat)
    ensures Truthy(unit) && unit.value in Units ==>
              r * Units[unit.value] <= free < (r + 1) * Units[unit.value]
    ensures !(Truthy(unit) && unit.value in Units) ==> r == free
  {
    if Truthy(unit) && unit.value in Units then free / Units[unit.value] else free
  }

  /** support_methods.is_in_fstab over the lines of /etc/fstab: some line
      contains the mount point anywhere as a substring. */
  function IsInFstab(lines: seq<string>, mountPoint: string): (r: bool)
    ensures r <==> exists k :: 0 <= k < |lines| && Contains(lines[k], mountPoint)
    decreases |lines|
  {
    if |lines| == 0 then false
    else if Contains(lines[0], mountPoint) then true
    else
      var r := IsInFstab(lines[1..], mountPoint);
      assert forall k :: 1 <= k < |lines| ==> lines[k] == lines[1..][k - 1];
      r
  }

  // ---- properties ----

  /** The unit table is exactly K, M, G and T with factors 1024 to 1024^4,
      each 1024 times the previous one. */
  lemma {:induction false} UnitTable()
    ensures Units.Keys == {"K", "M", "G", "T"}
    ensures Units["K"] == 1024
    ensures Units["M"] == 1024 * Units["K"]
    ensures Units["G"] == 1024 * Units["M"]
    ensures Units["T"] == 1024 * Units["G"]
  {
  }

  /** convert_size_to_bytes multiplies by the unit's factor and raises a
      ValueError for every other unit, lower-case ones included. */
  lemma ConvertSizeToBytesSpec(size: int, unit: string)
    ensures ConvertSizeToBytes(size, unit).Ok? <==> unit in {"K", "M", "G", "T"}
    ensures unit == "K" ==> ConvertSizeToBytes(size, unit) == Ok(size * 1024)
    ensures unit == "M" ==> ConvertSizeToBytes(size, unit) == Ok(size * 1048576)
    ensures unit == "G" ==> ConvertSizeToBytes(size, unit) == Ok(size * 1073741824)
    ensures unit == "T" ==> ConvertSizeToBytes(size, unit) == Ok(size * 1099511627776)
    ensures ConvertSizeToBytes(size, unit).Err? ==>
              ConvertSizeToBytes(size, unit).error == ValueError("Invalid unit: " + unit)
  {
    UnitTable();
  }

  /** valid_unit accepts exactly the units convert_size_to_bytes converts,
      answers True for them and raises a ValueError otherwise. */
  lemma ValidUnitAgreesWithConvert(size: int, unit: string)
    ensures ValidUnit(unit).Ok? <==> ConvertSizeToBytes(size, unit).Ok?
    ensures ValidUnit(unit).Ok? ==> ValidUnit(unit).value
    ensures ValidUnit(unit).Err? ==> ValidUnit(unit).error.ValueError?
  {
    UnitTable();
  }

  lemma {:induction false} StripUnchanged(s: string)
    requires |s| > 0 && !IsSpace(s[0]) && !IsSpace(s[|s| - 1])
    ensures Strip(s) == s
  {
  }

  lemma {:induction false} DropUnderscoresOfDigits(s: string)
    requires AllDigits(s)
    ensures DropUnderscores(s) == s
    decreases |s|
  {
    if |s| > 0 {
      DropUnderscoresOfDigits(s[1..]);
      assert s == [s[0]] + s[1..];
    }
  }

  /** A plain digit string reads as its value, with or without a minus. */
  lemma {:induction false} ParseSignedOfDigits(d: string)
    requires |d| > 0 && AllDigits(d)
    ensures ParseSigned(d) == Some(DigitsValue(d))
    ensures ParseSigned("-" + d) == Some(-(DigitsValue(d) as int))
  {
    DropUnderscoresOfDigits(d);
    assert DigitGroups(d);
    assert ("-" + d)[1..] == d;
  }

  /** A plain digit string, with or without a leading minus, reads back
      as its value. */
  lemma {:induction false} ParseIntOfDigits(d: string, v: nat)
    requires |d| > 0 && AllDigits(d) && DigitsValue(d) == v
    ensures ParseInt(d) == Some(v)
    ensures ParseInt("-" + d) == Some(-(v as int))
  {
    assert IsDigit(d[0]) && IsDigit(d[|d| - 1]);
    StripUnchanged(d);
    assert ("-" + d)[|"-" + d| - 1] == d[|d| - 1];
    StripUnchanged("-" + d);
    ParseSignedOfDigits(d);
  }

  /** The rendering of a natural number reads back as that number, and
      so does its negation with a minus sign in front. */
  lemma {:induction false} ParseIntOfNatToString(m: nat)
    ensures ParseInt(NatToString(m)) == Some(m)
    ensures ParseInt("-" + NatToString(m)) == Some(-(m as int))
  {
    DigitsValueOfNatToString(m);
    ParseIntOfDigits(NatToString(m), m);
  }

  /** int(str(n)) == n. */
  lemma {:induction false} ParseIntOfIntToString(n: int)
    ensures ParseInt(IntToString(n)) == Some(n)
  {
    if n < 0 {
      var m: nat := -n;
      assert IntToString(n) == "-" + NatToString(m);
      ParseIntOfNatToString(m);
    } else {
      assert IntToString(n) == NatToString(n);
      ParseIntOfNatToString(n);
    }
  }

  /** Round trip: parsing `str(n) + u` gives back n and the one-character
      unit u, and for a known unit the byte count is n times its factor. */
  lemma {:induction false} ParseThenConvert(n: int, u: string)
    requires |u| == 1
    ensures ParseSizeUnit(IntToString(n) + u) == Ok((n, u))
    ensures u in Units ==> ConvertSizeToBytes(n, u) == Ok(n * Units[u])
  {
    var s := IntToString(n) + u;
    assert s[..|s| - 1] == IntToString(n);
    ParseIntOfIntToString(n);
    assert [s[|s| - 1]] == u;
  }

  /** Stripping only drops characters. */
  lemma StripKeepsCharacters(p: string)
    ensures forall k :: 0 <= k < |Strip(p)| ==> Strip(p)[k] in p
  {
    var l := LStrip(p);
    var t := RStrip(l);
    assert t == Strip(p);
    forall k | 0 <= k < |t|
      ensures t[k] in p
    {
      var j := |p| - |l| + k;
      assert t[k] == l[k] by {
        assert t == l[..|t|];
      }
      assert l[k] == p[j] by {
        assert l == p[|p| - |l|..];
      }
    }
  }

  /** A string without a digit is not an integer. */
  lemma NoDigitsNoInt(t: string)
    requires forall k :: 0 <= k < |t| ==> !IsDigit(t[k])
    ensures ParseSigned(t) == None
  {
    assert !DigitGroups(t);
    assert |t| > 1 ==> !IsDigit(t[1..][0]);
  }

  /** A prefix without a single digit never parses: "G" and "abcG" raise a
      ValueError, "" an IndexError. */
  lemma {:induction false} ParseSizeUnitRejectsNoDigits(s: string)
    requires forall k :: 0 <= k < |s| ==> !IsDigit(s[k])
    ensures ParseSizeUnit(s) == Err(if |s| == 0 then IndexError else ValueError(SizeFormatMessage))
  {
    if |s| > 0 {
      var p := s[..|s| - 1];
      var t := Strip(p);
      StripKeepsCharacters(p);
      assert forall k :: 0 <= k < |t| ==> !IsDigit(t[k]) by {
        assert forall c :: c in p ==> !IsDigit(c);
      }
      NoDigitsNoInt(t);
    }
  }

  /** The worked example of the format message: "500G" is (500, "G"). */
  lemma ParseSizeUnitExample()
    ensures ParseSizeUnit("500G") == Ok((500, "G"))
    ensures ConvertSizeToBytes(500, "G") == Ok(536870912000)
  {
    assert NatToString(5) == "5";
    assert NatToString(50) == NatToString(5) + "0" == "50";
    assert NatToString(500) == NatToString(50) + "0" == "500";
    assert IntToString(500) + "G" == "500G";
    ParseThenConvert(500, "G");
    UnitTable();
  }

  /** int() strips every character str.isspace() accepts, the no-break
      space among them. */
  lemma ParseSizeUnitStripsNoBreakSpace()
    ensures ParseSizeUnit("\U{A0}500G") == Ok((500, "G"))
  {
    var s := "\U{A0}500G";
    assert s[..|s| - 1] == "\U{A0}" + "500";
    assert LStrip("\U{A0}" + "500") == "500" by {
      assert ("\U{A0}" + "500")[1..] == "500";
    }
    assert "500" == IntToString(500) by {
      assert NatToString(5) == "5";
      assert NatToString(50) == NatToString(5) + "0" == "50";
      assert NatToString(500) == NatToString(50) + "0" == "500";
    }
    ParseIntOfIntToString(500);
    assert [s[|s| - 1]] == "G";
  }

  /** get_available_space: no unit, an empty unit or an unknown unit gives
      the free byte count unchanged; a known unit multiplies it. */
  lemma GetAvailableSpaceSpec(free: nat, unit: Option<string>)
    ensures GetAvailableSpace(Some(free), unit).Ok?
    ensures !(Truthy(unit) && unit.value in Units) ==> GetAvailableSpace(Some(free), unit) == Ok(free)
    ensures Truthy(unit) && unit.value in Units ==>
              GetAvailableSpace(Some(free), unit) == Ok(free * Units[unit.value])
    ensures GetAvailableSpace(None, unit).Err?
  {
  }

  /** As written, asking for the free space in a unit yields a number
      larger than the byte count whenever anything is free: 2048 free
      bytes come back as 2097152 "K" where 2 was meant. */
  lemma AvailableSpaceMultipliesInsteadOfDividing(free: nat, u: string)
    requires free > 0 && u in Units
    ensures GetAvailableSpace(Some(free), Some(u)).value > free
    ensures AvailableSpaceIn(free, Some(u)) < free
    ensures GetAvailableSpace(Some(2048), Some("K")) == Ok(2097152)
    ensures AvailableSpaceIn(2048, Some("K")) == 2
  {
    UnitTable();
  }

  /** The plain fstab lookup finds any line mentioning the mount point,
      comments and device columns included. */
  lemma IsInFstabAnyMention(lines: seq<string>, mountPoint: string, k: nat)
    requires k < |lines| && Contains(lines[k], mountPoint)
    ensures IsInFstab(lines, mountPoint)
  {
  }
}
