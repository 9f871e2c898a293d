/** The two regular expressions that recover a speed from a Fagor
    description (App.tsx:83-84), written out as the searches a JavaScript
    regular-expression engine performs: leftmost start first, then the
    engine's backtracking order at that start.

      /Vel\. actual \| Vel\. permitida:.*?\| (\d+) km\/h/
      /Vel\. Vehiculo: (\d+)/

    Each search is paired with a declarative description of a match and
    proved to return exactly the leftmost one. */
module SpeedPatterns {
  import opened Wrappers
  import opened Text

  const CurrentAllowedPrefix := "Vel. actual | Vel. permitida:"
  const Bar := "| "
  const KmH := " km/h"
  const VehiclePrefix := "Vel. Vehiculo: "

  // ---------------------------------------------------------------------
  // Declarative descriptions of a match

  /** `\| (\d+) km\/h` matches at `j` and captures `d`. A shorter capture
      than the whole digit run is impossible: the character after it would
      be a digit, not the space of " km/h". */
  ghost predicate BarDigitsKmhAt(s: string, j: int, d: string) {
    && OccursAt(s, Bar, j)
    && d != [] && AllDigits(d)
    && OccursAt(s, d, j + |Bar|)
    && OccursAt(s, KmH, j + |Bar| + |d|)
  }

  /** The first pattern matches with its literal prefix at `i`, the lazy
      `.*?` spanning `s[i + |prefix| .. j]` (no line terminator in it) and
      the tail at `j` capturing `d`. */
  ghost predicate CurrentAllowedAt(s: string, i: int, j: int, d: string) {
    && OccursAt(s, CurrentAllowedPrefix, i)
    && i + |CurrentAllowedPrefix| <= j
    && BarDigitsKmhAt(s, j, d)
    && NoLineBreak(s, i + |CurrentAllowedPrefix|, j)
  }

  ghost predicate NoLineBreak(s: string, from: int, to: int)
    requires 0 <= from <= to <= |s|
  {
    forall k :: from <= k < to ==> !IsLineTerminator(s[k])
  }

  /** The match the engine reports: leftmost start, then (the `.*?` being
      lazy) the shortest span before the tail. */
  ghost predicate FirstCurrentAllowed(s: string, i: int, j: int, d: string) {
    && CurrentAllowedAt(s, i, j, d)
    && forall i', j', d' :: CurrentAllowedAt(s, i', j', d') ==> i < i' || (i == i' && j <= j')
  }

  /** The second pattern matches at `i` capturing `d`; `\d+` is greedy and
      nothing follows it, so `d` is the whole digit run. */
  ghost predicate VehicleAt(s: string, i: int, d: string) {
    && OccursAt(s, VehiclePrefix, i)
    && d != [] && AllDigits(d)
    && OccursAt(s, d, i + |VehiclePrefix|)
    && (i + |VehiclePrefix| + |d| == |s| || !IsDigit(s[i + |VehiclePrefix| + |d|]))
  }

  ghost predicate FirstVehicle(s: string, i: int, d: string) {
    && VehicleAt(s, i, d)
    && forall i', d' :: VehicleAt(s, i', d') ==> i <= i'
  }

  // ---------------------------------------------------------------------
  // The searches

  /** The tail `\| (\d+) km\/h` tried at position `j`. */
  function BarDigitsKmh(s: string, j: nat): (m: Option<string>)
    requires j <= |s|
    ensures m.Some? ==> BarDigitsKmhAt(s, j, m.value)
    ensures m.None? ==> forall d :: !BarDigitsKmhAt(s, j, d)
  {
    if OccursAt(s, Bar, j) then
      var d := DigitPrefix(s[j + |Bar|..]);
      if d != [] && OccursAt(s, KmH, j + |Bar| + |d|) then
        assert OccursAt(s, d, j + |Bar|);
        Some(d)
      else
        assert forall d' :: BarDigitsKmhAt(s, j, d') ==> d' == d by {
          forall d' | BarDigitsKmhAt(s, j, d') ensures d' == d {
            DigitRunIsMaximal(s, j + |Bar|, d');
          }
        }
        None
    else None
  }

  /** A digit string found at `p` and followed by a space or by the end is the
      longest digit prefix there. */
  lemma DigitRunIsMaximal(s: string, p: nat, d: string)
    requires p <= |s| && AllDigits(d) && OccursAt(s, d, p)
    requires p + |d| == |s| || !IsDigit(s[p + |d|])
    ensures DigitPrefix(s[p..]) == d
  {
    var t := s[p..];
    assert d <= t;
    DigitPrefixOfRun(t, d);
  }

  lemma {:induction false} DigitPrefixOfRun(t: string, d: string)
    requires AllDigits(d) && d <= t
    requires |d| == |t| || !IsDigit(t[|d|])
    ensures DigitPrefix(t) == d
  {
    if d != [] {
      DigitPrefixOfRun(t[1..], d[1..]);
    }
  }

  /** `.*?` then the tail, from position `j`: try the tail here, otherwise
      let `.` take one more character (never a line terminator). */
  function LazyTail(s: string, j: nat): (m: Option<(nat, string)>)
    requires j <= |s|
    ensures m.Some? ==> j <= m.value.0 <= |s| && BarDigitsKmhAt(s, m.value.0, m.value.1)
                        && NoLineBreak(s, j, m.value.0)
                        && forall j', d' :: j <= j' < m.value.0 ==> !BarDigitsKmhAt(s, j', d')
    ensures m.None? ==> forall j', d' :: j <= j' <= |s| && NoLineBreak(s, j, j') ==> !BarDigitsKmhAt(s, j', d')
    decreases |s| - j
  {
    match BarDigitsKmh(s, j)
    case Some(d) => Some((j, d))
    case None =>
      if j < |s| && !IsLineTerminator(s[j]) then
        var m := LazyTail(s, j + 1);
        assert m.None? ==> forall j' :: j < j' <= |s| && NoLineBreak(s, j, j') ==> NoLineBreak(s, j + 1, j');
        m
      else
        assert forall j' :: j < j' <= |s| ==> !NoLineBreak(s, j, j');
        None
  }

  /** The first pattern searched from start position `i` onwards. */
  function SearchCurrentAllowed(s: string, i: nat): (m: Option<string>)
    requires i <= |s|
    ensures m.Some? ==> exists i', j :: i <= i' && FirstFrom(s, i, i', j, m.value)
    ensures m.None? ==> forall i', j, d :: i <= i' ==> !CurrentAllowedAt(s, i', j, d)
    decreases |s| - i
  {
    var p := i + |CurrentAllowedPrefix|;
    if OccursAt(s, CurrentAllowedPrefix, i) && LazyTail(s, p).Some? then
      var (j, d) := LazyTail(s, p).value;
      assert CurrentAllowedAt(s, i, j, d);
      assert FirstFrom(s, i, i, j, d) by {
        forall i'', j', d' | i <= i'' && CurrentAllowedAt(s, i'', j', d')
          ensures i < i'' || (i == i'' && j <= j')
        {
          assert p <= j';
        }
      }
      Some(d)
    else
      assert forall j, d :: !CurrentAllowedAt(s, i, j, d) by {
        if OccursAt(s, CurrentAllowedPrefix, i) {
          assert LazyTail(s, p).None?;
        }
      }
      if i < |s| then
        var m := SearchCurrentAllowed(s, i + 1);
        assert m.Some? ==> exists i', j :: i <= i' && FirstFrom(s, i, i', j, m.value) by {
          if m.Some? {
            var i', j :| i + 1 <= i' && FirstFrom(s, i + 1, i', j, m.value);
            assert FirstFrom(s, i, i', j, m.value);
          }
        }
        m
      else
        assert forall i': int :: i < i' ==> !OccursAt(s, CurrentAllowedPrefix, i');
        None
  }

  /** `(i', j, d)` is the first match among those starting at `i` or later. */
  ghost predicate FirstFrom(s: string, i: int, i': int, j: int, d: string) {
    && CurrentAllowedAt(s, i', j, d)
    && forall i'', j', d' :: i <= i'' && CurrentAllowedAt(s, i'', j', d') ==> i' < i'' || (i' == i'' && j <= j')
  }

  /** `text.match(/Vel\. actual \| Vel\. permitida:.*?\| (\d+) km\/h/)?.[1]`. */
  function MatchCurrentAllowed(s: string): (m: Option<string>)
    ensures m.Some? ==> exists i, j :: FirstCurrentAllowed(s, i, j, m.value)
    ensures m.None? ==> forall i, j, d :: !CurrentAllowedAt(s, i, j, d)
  {
    var m := SearchCurrentAllowed(s, 0);
    assert m.Some? ==> exists i, j :: FirstCurrentAllowed(s, i, j, m.value) by {
      if m.Some? {
        var i, j :| 0 <= i && FirstFrom(s, 0, i, j, m.value);
        forall i', j', d' | CurrentAllowedAt(s, i', j', d') ensures i < i' || (i == i' && j <= j') {
          assert 0 <= i';
        }
        assert FirstCurrentAllowed(s, i, j, m.value);
      }
    }
    m
  }

  /** The second pattern searched from start position `i` onwards. */
  function SearchVehicle(s: string, i: nat): (m: Option<string>)
    requires i <= |s|
    ensures m.Some? ==> exists i' :: i <= i' && VehicleAt(s, i', m.value)
                                     && forall i'', d' :: i <= i'' && VehicleAt(s, i'', d') ==> i' <= i''
    ensures m.None? ==> forall i', d :: i <= i' ==> !VehicleAt(s, i', d)
    decreases |s| - i
  {
    var p := i + |VehiclePrefix|;
    if OccursAt(s, VehiclePrefix, i) && DigitPrefix(s[p..]) != [] then
      var d := DigitPrefix(s[p..]);
      assert OccursAt(s, d, p);
      assert VehicleAt(s, i, d);
      Some(d)
    else
      assert forall d :: !VehicleAt(s, i, d) by {
        forall d | VehicleAt(s, i, d) ensures false {
          DigitRunIsMaximal(s, p, d);
        }
      }
      if i < |s| then SearchVehicle(s, i + 1)
      else
        assert forall i': int :: i < i' ==> !OccursAt(s, VehiclePrefix, i');
        None
  }

  /** `text.match(/Vel\. Vehiculo: (\d+)/)?.[1]`. */
  function MatchVehicle(s: string): (m: Option<string>)
    ensures m.Some? ==> exists i :: FirstVehicle(s, i, m.value)
    ensures m.None? ==> forall i, d :: !VehicleAt(s, i, d)
  {
    var m := SearchVehicle(s, 0);
    assert m.Some? ==> exists i :: FirstVehicle(s, i, m.value) by {
      if m.Some? {
        var i :| 0 <= i && VehicleAt(s, i, m.value)
                 && forall i'', d' :: 0 <= i'' && VehicleAt(s, i'', d') ==> i <= i'';
        forall i', d' | VehicleAt(s, i', d') ensures i <= i' {
          assert 0 <= i';
        }
        assert FirstVehicle(s, i, m.value);
      }
    }
    m
  }

  // ---------------------------------------------------------------------
  // The speed

  /** The speed App.tsx:81-90 recovers from a description: the first
      pattern's digits when it matches, else the second pattern's, else 0. */
  function ExtractSpeed(text: string): (speed: nat)
    ensures (exists i, j, d :: CurrentAllowedAt(text, i, j, d)) ==>
              exists i, j, d :: FirstCurrentAllowed(text, i, j, d) && speed == DigitsValue(d)
    ensures (forall i, j, d :: !CurrentAllowedAt(text, i, j, d)) && (exists i, d :: VehicleAt(text, i, d)) ==>
              exists i, d :: FirstVehicle(text, i, d) && speed == DigitsValue(d)
    ensures (forall i, j, d :: !CurrentAllowedAt(text, i, j, d)) && (forall i, d :: !VehicleAt(text, i, d)) ==>
              speed == 0
  {
    match MatchCurrentAllowed(text)
    case Some(d) => DigitsValue(d)
    case None =>
      match MatchVehicle(text)
      case Some(d) => DigitsValue(d)
      case None => 0
  }
}
