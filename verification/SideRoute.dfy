/** The path prefixes of the session-addressed side endpoints. */
module SideRoute {
  import opened Strings
  import opened Wrappers

  const PREFIXES: seq<string> := [
    "/vnc/", "/devtools/", "/video/", "/logs/", "/download/", "/downloads/", "/clipboard/"
  ]

  const HISTORY_SETTINGS_EXACT := "/history/settings"
  const HISTORY_SETTINGS_PREFIX := "/history/settings/"

  predicate IsHistorySettings(path: string) {
    path == HISTORY_SETTINGS_EXACT || HasPrefix(path, HISTORY_SETTINGS_PREFIX)
  }

  predicate IsSide(path: string) {
    IsHistorySettings(path) || exists prefix <- PREFIXES :: HasPrefix(path, prefix)
  }

  /** The first prefix, in list order, that starts the path. */
  function MatchFrom(path: string, i: nat): Option<(string, string)>
    decreases |PREFIXES| - i
  {
    if i >= |PREFIXES| then None
    else if HasPrefix(path, PREFIXES[i]) then Some((PREFIXES[i], TrimPrefix(path, PREFIXES[i])))
    else MatchFrom(path, i + 1)
  }

  function MatchPrefix(path: string): Option<(string, string)> {
    MatchFrom(path, 0)
  }

  /** No prefix starts another: `/download/` and `/downloads/` differ at the slash. */
  lemma PrefixFree(i: nat, j: nat)
    requires i < |PREFIXES| && j < |PREFIXES| && HasPrefix(PREFIXES[i], PREFIXES[j])
    ensures i == j
  {
    assert PREFIXES[i][1] == PREFIXES[j][1] && PREFIXES[i][2] == PREFIXES[j][2];
    assert PREFIXES[i][|PREFIXES[j]| - 1] == PREFIXES[j][|PREFIXES[j]| - 1];
  }

  lemma AtMostOnePrefix(path: string, i: nat, j: nat)
    requires i < |PREFIXES| && j < |PREFIXES|
    requires HasPrefix(path, PREFIXES[i]) && HasPrefix(path, PREFIXES[j])
    ensures i == j
  {
    if |PREFIXES[i]| <= |PREFIXES[j]| {
      assert PREFIXES[j][..|PREFIXES[i]|] == path[..|PREFIXES[i]|];
      PrefixFree(j, i);
    } else {
      assert PREFIXES[i][..|PREFIXES[j]|] == path[..|PREFIXES[j]|];
      PrefixFree(i, j);
    }
  }

  lemma {:induction false} MatchFromFinds(path: string, i: nat, k: nat)
    requires i <= k < |PREFIXES| && HasPrefix(path, PREFIXES[k])
    ensures MatchFrom(path, i) == Some((PREFIXES[k], TrimPrefix(path, PREFIXES[k])))
    decreases k - i
  {
    if HasPrefix(path, PREFIXES[i]) {
      AtMostOnePrefix(path, i, k);
    } else {
      MatchFromFinds(path, i + 1, k);
    }
  }

  /**
    The prefix that the mux stamped on the request (it registered `prefix` and
    the path starts with it) is the one a rescan of the list would find.
   */
  lemma StampedPrefixIsMatched(path: string, prefix: string)
    requires prefix in PREFIXES
    ensures HasPrefix(path, prefix) <==> MatchPrefix(path) == Some((prefix, TrimPrefix(path, prefix)))
  {
    var k :| 0 <= k < |PREFIXES| && PREFIXES[k] == prefix;
    if HasPrefix(path, prefix) {
      MatchFromFinds(path, 0, k);
    } else if MatchPrefix(path).Some? {
      MatchFromSound(path, 0);
    }
  }

  lemma {:induction false} MatchFromSound(path: string, i: nat)
    ensures var m := MatchFrom(path, i);
            m.Some? ==> m.value.0 in PREFIXES && HasPrefix(path, m.value.0) && path == m.value.0 + m.value.1
    decreases |PREFIXES| - i
  {
    if i < |PREFIXES| && !HasPrefix(path, PREFIXES[i]) {
      MatchFromSound(path, i + 1);
    }
  }

  /** The session-addressed endpoints, one by one. */
  lemma SessionEndpoints(prefix: string, rest: string)
    ensures prefix in {"/vnc/", "/devtools/", "/video/", "/logs/", "/download/", "/downloads/", "/clipboard/"} ==>
              MatchPrefix(prefix + rest) == Some((prefix, rest)) && IsSide(prefix + rest)
    ensures IsSide("/history/settings") && IsSide("/history/settings/" + rest)
  {
    if prefix in {"/vnc/", "/devtools/", "/video/", "/logs/", "/download/", "/downloads/", "/clipboard/"} {
      assert PREFIXES[0] == "/vnc/" && PREFIXES[1] == "/devtools/" && PREFIXES[2] == "/video/";
      assert PREFIXES[3] == "/logs/" && PREFIXES[4] == "/download/";
      assert PREFIXES[5] == "/downloads/" && PREFIXES[6] == "/clipboard/";
      assert HasPrefix(prefix + rest, prefix);
      StampedPrefixIsMatched(prefix + rest, prefix);
    }
  }
}
