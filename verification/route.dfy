/**
  Building the route: the free-text waypoint field is split on commas,
  every piece is trimmed and blank pieces are dropped, and the result is
  framed by the start and end cities exactly as typed.
 */
module Route {
  import opened Wrappers
  import opened Filtering
  import opened Text

  /** One waypoint piece: its trimmed text, or nothing when it is blank. */
  function NonBlank(piece: string): (w: Option<string>)
    ensures w.None? <==> AllSpace(piece)
    ensures w.Some? ==> w.value == Strip(piece)
  {
    var t := Strip(piece);
    if t == [] then None else Some(t)
  }

  /**
    `[city.strip() for city in cities if city.strip()]`: every kept entry
    is non-empty and already trimmed, and no more entries come out than
    went in. Which entries they are is `CleanWaypointsInOrder`.
   */
  function CleanWaypoints(pieces: seq<string>): (ws: seq<string>)
    ensures |ws| <= |pieces|
    ensures |ws| == |pieces| - Misses(pieces, NonBlank)
    ensures forall k | 0 <= k < |ws| :: ws[k] != [] && Stripped(ws[k])
  {
    var ws := FilterMap(pieces, NonBlank);
    assert forall k | 0 <= k < |ws| :: ws[k] != [] && Stripped(ws[k]) by {
      forall k | 0 <= k < |ws|
        ensures ws[k] != [] && Stripped(ws[k])
      {
        KeptYields(pieces, NonBlank, k);
      }
    }
    ws
  }

  /** Entry k of the cleaned list is the trimmed piece at the k-th kept position. */
  lemma {:induction false} CleanWaypointsAt(pieces: seq<string>)
    ensures |CleanWaypoints(pieces)| == |Kept(pieces, NonBlank)|
    ensures forall k | 0 <= k < |CleanWaypoints(pieces)| ::
      CleanWaypoints(pieces)[k] == Strip(pieces[Kept(pieces, NonBlank)[k]])
  {
    forall k | 0 <= k < |CleanWaypoints(pieces)|
      ensures CleanWaypoints(pieces)[k] == Strip(pieces[Kept(pieces, NonBlank)[k]])
    {
      KeptYields(pieces, NonBlank, k);
    }
  }

  /** The k-th cleaned waypoint is the trimmed text of the k-th non-blank piece. */
  lemma {:induction false} CleanWaypointsInOrder(pieces: seq<string>, k: nat)
    requires k < |CleanWaypoints(pieces)|
    ensures Kept(pieces, NonBlank)[k] < |pieces|
    ensures !AllSpace(pieces[Kept(pieces, NonBlank)[k]])
    ensures CleanWaypoints(pieces)[k] == Strip(pieces[Kept(pieces, NonBlank)[k]])
  {
    KeptYields(pieces, NonBlank, k);
  }

  /** No non-blank piece is lost. */
  lemma {:induction false} CleanWaypointsComplete(pieces: seq<string>, i: nat)
    requires i < |pieces| && !AllSpace(pieces[i])
    ensures exists k | 0 <= k < |CleanWaypoints(pieces)| :: Kept(pieces, NonBlank)[k] == i
  {
    KeptComplete(pieces, NonBlank, i);
  }

  /** Waypoints that are already non-empty and trimmed survive cleaning unchanged. */
  lemma {:induction false} CleanWaypointsFixes(ws: seq<string>)
    requires forall k | 0 <= k < |ws| :: ws[k] != [] && Stripped(ws[k])
    ensures CleanWaypoints(ws) == ws
  {
    forall k | 0 <= k < |ws|
      ensures NonBlank(ws[k]) == Some(ws[k])
    {
      StripPadded([], ws[k], []);
      assert [] + ws[k] + [] == ws[k];
    }
    FilterMapFixes(ws, NonBlank);
  }

  /** Cleaning an already cleaned list changes nothing. */
  lemma {:induction false} CleanWaypointsIdempotent(pieces: seq<string>)
    ensures CleanWaypoints(CleanWaypoints(pieces)) == CleanWaypoints(pieces)
  {
    CleanWaypointsFixes(CleanWaypoints(pieces));
  }

  /**
    The waypoint field: split on commas, then cleaned. The k-th name is the
    trimmed k-th non-blank comma piece (see `CleanWaypointsComplete` and
    `KeptIncreasing` for "none dropped, order kept").
   */
  function ParseWaypoints(text: string): (ws: seq<string>)
    ensures |ws| <= |Split(text, ',')|
    ensures |ws| == |Kept(Split(text, ','), NonBlank)|
    ensures forall k | 0 <= k < |ws| ::
      ws[k] == Strip(Split(text, ',')[Kept(Split(text, ','), NonBlank)[k]])
    ensures forall k | 0 <= k < |ws| :: ws[k] != [] && Stripped(ws[k]) && ',' !in ws[k]
  {
    var pieces := Split(text, ',');
    var ws := CleanWaypoints(pieces);
    assert forall k | 0 <= k < |ws| ::
      ws[k] == Strip(pieces[Kept(pieces, NonBlank)[k]]) && ',' !in ws[k] by {
      forall k | 0 <= k < |ws|
        ensures ws[k] == Strip(pieces[Kept(pieces, NonBlank)[k]]) && ',' !in ws[k]
      {
        CleanWaypointsInOrder(pieces, k);
        var j := Kept(pieces, NonBlank)[k];
        if ',' in ws[k] {
          StripKeepsCharacters(pieces[j], ',');
        }
      }
    }
    ws
  }

  /**
    `[start_city] + cleaned waypoints + [end_city]`: two more entries than
    there are non-blank waypoints, the start and end cities verbatim at the
    two ends, and in between the trimmed non-blank waypoints in input
    order: entry k + 1 is the trimmed waypoint at the k-th kept position.
   */
  function BuildRoute(start: string, end: string, waypoints: seq<string>): (route: seq<string>)
    ensures |route| == 2 + |waypoints| - Misses(waypoints, NonBlank)
    ensures |route| == 2 + |Kept(waypoints, NonBlank)|
    ensures route[0] == start && route[|route| - 1] == end
    ensures forall k | 0 <= k < |route| - 2 ::
      route[k + 1] == Strip(waypoints[Kept(waypoints, NonBlank)[k]])
    ensures forall i | 0 < i < |route| - 1 :: route[i] != [] && Stripped(route[i])
  {
    var ws := CleanWaypoints(waypoints);
    var route := [start] + ws + [end];
    assert forall i | 0 < i < |route| - 1 :: route[i] == ws[i - 1];
    assert |ws| == |Kept(waypoints, NonBlank)|
      && forall k | 0 <= k < |ws| :: ws[k] == Strip(waypoints[Kept(waypoints, NonBlank)[k]]) by {
      CleanWaypointsAt(waypoints);
    }
    route
  }

  /** No non-blank waypoint is missing from the route: its trimmed text sits at its kept position. */
  lemma {:induction false} BuildRouteComplete(start: string, end: string, waypoints: seq<string>, i: nat)
    requires i < |waypoints| && !AllSpace(waypoints[i])
    ensures exists k | 0 <= k < |BuildRoute(start, end, waypoints)| - 2 ::
      Kept(waypoints, NonBlank)[k] == i && BuildRoute(start, end, waypoints)[k + 1] == Strip(waypoints[i])
  {
    KeptComplete(waypoints, NonBlank, i);
    var ks := Kept(waypoints, NonBlank);
    var k :| 0 <= k < |ks| && ks[k] == i;
    assert BuildRoute(start, end, waypoints)[k + 1] == Strip(waypoints[i]);
  }

  /**
    The route the form handler assembles from already cleaned waypoints
    (what `ParseWaypoints` delivers) is the route the forecast step
    rebuilds from them: the second clean-up changes nothing.
   */
  lemma {:induction false} FormRouteMatchesRebuilt(start: string, end: string, ws: seq<string>)
    requires forall k | 0 <= k < |ws| :: ws[k] != [] && Stripped(ws[k])
    ensures BuildRoute(start, end, ws) == [start] + ws + [end]
  {
    CleanWaypointsFixes(ws);
  }
}
