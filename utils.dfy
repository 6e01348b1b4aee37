/** The pure helpers of lib/utils/index.ts: tracking-number format, volume conversion,
    and the colour and label shown for a status. */
module Utils {
  import opened Common
  import opened Strings

  // ---------------------------------------------------------------------------
  // Tracking numbers

  /** `Math.floor(Math.random() * 10000)` for a draw `random` in [0, 1). */
  function RandomSuffix(random: real): (n: nat)
    requires 0.0 <= random < 1.0
    ensures n < 10000
  {
    (random * 10000.0).Floor
  }

  /** `CP${Date.now()}${suffix.toString().padStart(4, '0')}`, with the clock reading
      and the random draw as parameters. */
  function TrackingNumber(timestamp: nat, random: real): (t: string)
    requires 0.0 <= random < 1.0
    ensures |t| == 2 + |Decimal(timestamp)| + 4
    ensures t[..2] == "CP"
    ensures t[2..|t| - 4] == Decimal(timestamp)
    ensures AllDigits(t[2..])
  {
    var n := RandomSuffix(random);
    DecimalLength(n, 4);
    "CP" + Decimal(timestamp) + PadStart(Decimal(n), 4, '0')
  }

  /** Reads a tracking number back into its timestamp and random suffix. */
  function ParseTrackingNumber(t: string): Option<(nat, nat)> {
    if |t| >= 7 && t[..2] == "CP" && AllDigits(t[2..]) then
      DigitsSlice(t, 2, |t| - 4);
      DigitsSlice(t, |t| - 4, |t|);
      Some((DecimalValue(t[2..|t| - 4]), DecimalValue(t[|t| - 4..])))
    else None
  }

  lemma DigitsSlice(s: string, a: nat, b: nat)
    requires a <= b <= |s| && AllDigits(s[a..])
    ensures AllDigits(s[a..b])
  {
    assert forall i :: 0 <= i < b - a ==> s[a..b][i] == s[a..][i];
  }

  /** Leading zeros do not change a decimal value. */
  lemma {:induction false} LeadingZeros(z: string, ds: string)
    requires forall i :: 0 <= i < |z| ==> z[i] == '0'
    requires AllDigits(ds)
    ensures AllDigits(z + ds)
    ensures DecimalValue(z + ds) == DecimalValue(ds)
  {
    var s := z + ds;
    assert forall i :: 0 <= i < |s| ==> IsDigit(s[i]) by {
      forall i | 0 <= i < |s| ensures IsDigit(s[i]) {
        if i < |z| { assert s[i] == z[i]; } else { assert s[i] == ds[i - |z|]; }
      }
    }
    if ds == [] {
      assert s == z;
      if z != [] {
        LeadingZeros(z[..|z| - 1], []);
        assert s[..|s| - 1] == z[..|z| - 1] + [];
      }
    } else {
      LeadingZeros(z, ds[..|ds| - 1]);
      assert s[..|s| - 1] == z + ds[..|ds| - 1];
    }
  }

  /** A generated tracking number reads back as the clock reading and the suffix drawn. */
  lemma TrackingNumberRoundTrip(timestamp: nat, random: real)
    requires 0.0 <= random < 1.0
    ensures ParseTrackingNumber(TrackingNumber(timestamp, random))
            == Some((timestamp, RandomSuffix(random)))
  {
    var t := TrackingNumber(timestamp, random);
    var n := RandomSuffix(random);
    DecimalLength(n, 4);
    var padded := PadStart(Decimal(n), 4, '0');
    assert t == "CP" + Decimal(timestamp) + padded;
    assert t[|t| - 4..] == padded;
    var z := padded[..4 - |Decimal(n)|];
    assert padded == z + Decimal(n);
    LeadingZeros(z, Decimal(n));
    DecimalRoundTrip(n);
    DecimalRoundTrip(timestamp);
  }

  // ---------------------------------------------------------------------------
  // Volume

  /** Cubic centimetres to cubic metres. */
  function Volume(length: real, width: real, height: real): (v: real)
    ensures length > 0.0 && width > 0.0 && height > 0.0 ==> v > 0.0
  {
    assert length > 0.0 && width > 0.0 && height > 0.0 ==> length * width * height > 0.0 by {
      if length > 0.0 && width > 0.0 && height > 0.0 {
        assert length * width > 0.0;
      }
    }
    (length * width * height) / 1000000.0
  }

  /** A million cubic centimetres make one cubic metre. */
  lemma VolumeScale(length: real, width: real, height: real)
    ensures Volume(length, width, height) * 1000000.0 == length * width * height
  {
  }

  // ---------------------------------------------------------------------------
  // Status colour

  const Gray: string := "bg-gray-100 text-gray-800"

  const StatusColors: map<string, string> := map[
    "PENDING" := Gray,
    "RECEIVED" := "bg-blue-100 text-blue-800",
    "IN_TRANSIT" := "bg-yellow-100 text-yellow-800",
    "SORTING_FACILITY" := "bg-purple-100 text-purple-800",
    "OUT_FOR_DELIVERY" := "bg-indigo-100 text-indigo-800",
    "DELIVERED" := "bg-green-100 text-green-800",
    "RETURNED" := "bg-orange-100 text-orange-800",
    "FAILED" := "bg-red-100 text-red-800",
    "CANCELLED" := Gray]

  /** The badge colour of a status string: the table entry, else the gray default. */
  function StatusColor(status: string): (c: string)
    ensures c != ""
    ensures c == Gray <==> status == "PENDING" || status == "CANCELLED" || StatusFromName(status).None?
  {
    if status in StatusColors && StatusColors[status] != "" then StatusColors[status] else Gray
  }

  /** Distinct statuses other than PENDING and CANCELLED get distinct colours. */
  lemma StatusColorsDistinct(a: ShipmentStatus, b: ShipmentStatus)
    requires a != b
    requires a !in {Pending, Cancelled} || b !in {Pending, Cancelled}
    ensures StatusColor(StatusName(a)) != StatusColor(StatusName(b))
  {
  }

  // ---------------------------------------------------------------------------
  // Status label

  /** `word.charAt(0).toUpperCase() + word.slice(1).toLowerCase()`. */
  function Capitalize(w: string): string {
    if w == [] then [] else [Upper(w[0])] + LowerAll(w[1..])
  }

  function CapitalizeAll(ws: seq<string>): (r: seq<string>)
    ensures |r| == |ws|
  {
    if |ws| == 0 then [] else [Capitalize(ws[0])] + CapitalizeAll(ws[1..])
  }

  /** `status.split('_').map(capitalize).join(' ')`. */
  function StatusLabel(status: string): string {
    Join(CapitalizeAll(Split(status, '_')), " ")
  }

  /** The character a label has at a position where the status has `c`, given whether
      that position starts a word. */
  function LabelChar(c: char, startsWord: bool): char {
    if c == '_' then ' ' else if startsWord then Upper(c) else Lower(c)
  }

  /** A character-by-character reference definition of the label: underscores become
      spaces, a letter that starts a word is upper-cased and every other letter is
      lower-cased. `atStart` says whether the first character starts a word. */
  function LabelFrom(s: string, atStart: bool): (r: string)
    ensures |r| == |s|
    ensures |s| > 0 ==> r[0] == LabelChar(s[0], atStart)
    ensures forall i :: 0 < i < |s| ==> r[i] == LabelChar(s[i], s[i - 1] == '_')
  {
    if s == [] then []
    else [LabelChar(s[0], atStart)] + LabelFrom(s[1..], s[0] == '_')
  }

  /** The label of `s` when its first word is capitalized (atStart) or only lower-cased. */
  function LabelWithFirst(s: string, atStart: bool): string {
    var ws := Split(s, '_');
    Join([if atStart then Capitalize(ws[0]) else LowerAll(ws[0])] + CapitalizeAll(ws[1..]), " ")
  }

  lemma JoinConsHead(c: char, w: string, rest: seq<string>, sep: string)
    ensures Join([[c] + w] + rest, sep) == [c] + Join([w] + rest, sep)
  {
    if |rest| > 0 {
      assert ([[c] + w] + rest)[1..] == rest;
      assert ([w] + rest)[1..] == rest;
    }
  }

  lemma {:induction false} LabelWithFirstIsLabelFrom(s: string, atStart: bool)
    ensures LabelWithFirst(s, atStart) == LabelFrom(s, atStart)
  {
    if s != [] {
      var rest := Split(s[1..], '_');
      if s[0] == '_' {
        assert Split(s, '_') == [""] + rest;
        LabelWithFirstIsLabelFrom(s[1..], true);
        assert CapitalizeAll(rest) == [Capitalize(rest[0])] + CapitalizeAll(rest[1..]);
        assert ([""] + rest)[1..] == rest;
        assert LabelWithFirst(s, atStart) == Join([""] + CapitalizeAll(rest), " ");
        assert ([""] + CapitalizeAll(rest))[1..] == CapitalizeAll(rest);
      } else {
        var w := rest[0];
        var ws := Split(s, '_');
        assert ws == [[s[0]] + w] + rest[1..];
        LabelWithFirstIsLabelFrom(s[1..], false);
        var first := if atStart then Capitalize(ws[0]) else LowerAll(ws[0]);
        assert ([s[0]] + w)[1..] == w;
        assert first == [LabelChar(s[0], atStart)] + LowerAll(w);
        JoinConsHead(LabelChar(s[0], atStart), LowerAll(w), CapitalizeAll(rest[1..]), " ");
      }
    }
  }

  /** The label agrees with the character-wise reference definition: same length,
      `_` becomes a space, the first letter of each word is upper-cased and every other
      letter lower-cased. */
  lemma StatusLabelCharwise(s: string)
    ensures StatusLabel(s) == LabelFrom(s, true)
    ensures |StatusLabel(s)| == |s|
  {
    var ws := Split(s, '_');
    assert CapitalizeAll(ws) == [Capitalize(ws[0])] + CapitalizeAll(ws[1..]);
    LabelWithFirstIsLabelFrom(s, true);
  }

  lemma {:induction false} CountCorresponding(a: string, b: string, ca: char, cb: char)
    requires |a| == |b|
    requires forall i :: 0 <= i < |a| ==> (a[i] == ca <==> b[i] == cb)
    ensures Count(a, ca) == Count(b, cb)
  {
    if a != [] {
      CountCorresponding(a[1..], b[1..], ca, cb);
    }
  }

  lemma LabelCharSpace(c: char, startsWord: bool)
    ensures LabelChar(c, startsWord) == ' ' <==> c == '_' || c == ' '
  {
  }

  /** For a status without spaces, the label has one word per underscore-separated part. */
  lemma StatusLabelWords(s: string)
    requires ' ' !in s
    ensures |Split(StatusLabel(s), ' ')| == |Split(s, '_')| == Count(s, '_') + 1
  {
    StatusLabelCharwise(s);
    var r := LabelFrom(s, true);
    forall i | 0 <= i < |s| ensures s[i] == '_' <==> r[i] == ' ' {
      assert s[i] != ' ';
      LabelCharSpace(s[i], if i == 0 then true else s[i - 1] == '_');
    }
    CountCorresponding(s, r, '_', ' ');
  }

  /** The label of the wire name OUT_FOR_DELIVERY. */
  lemma OutForDeliveryLabel(s: string)
    requires s == StatusName(OutForDelivery)
    ensures StatusLabel(s) == "Out For Delivery"
  {
    StatusLabelCharwise(s);
    var r := LabelFrom(s, true);
    LabelPrefix(s, r);
    LabelSuffix(s, r);
    assert r == r[..8] + r[8..];
  }

  lemma LabelPrefix(s: string, r: string)
    requires s == "OUT_FOR_DELIVERY" && r == LabelFrom(s, true)
    ensures r[..8] == "Out For "
  {
    forall i | 0 <= i < 8 ensures r[i] == "Out For "[i] {
      if i == 0 {
        assert r[0] == LabelChar('O', true);
      } else {
        assert r[i] == LabelChar(s[i], s[i - 1] == '_');
      }
    }
  }

  lemma LabelSuffix(s: string, r: string)
    requires s == "OUT_FOR_DELIVERY" && r == LabelFrom(s, true)
    ensures r[8..] == "Delivery"
  {
    forall i | 8 <= i < 16 ensures r[i] == "Delivery"[i - 8] {
      assert r[i] == LabelChar(s[i], s[i - 1] == '_');
    }
  }
}
