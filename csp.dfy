/** The middleware's Content-Security-Policy: eight directives joined by
    "; ", loosened in development for hot reloading (eval in scripts,
    websocket and localhost connections), set on every response. */
module Csp {
  import opened Common

  /** `Array.prototype.join` */
  function Join(parts: seq<string>, sep: string): string
  {
    if |parts| == 0 then ""
    else if |parts| == 1 then parts[0]
    else parts[0] + sep + Join(parts[1..], sep)
  }

  /** t occurs in s starting at i. */
  predicate OccursAt(s: string, t: string, i: int)
  {
    0 <= i <= |s| - |t| && s[i..i + |t|] == t
  }

  /** `s.includes(t)` */
  predicate Contains(s: string, t: string)
  {
    exists i :: 0 <= i <= |s| && OccursAt(s, t, i)
  }

  /** The script directive, with 'unsafe-eval' in development. */
  function ScriptSrc(isDev: bool): string
  {
    "script-src 'self'" + (if isDev then " 'unsafe-eval'" else "")
  }

  /** The connect directive: websockets and localhost in development. */
  function ConnectSrc(isDev: bool): string
  {
    "connect-src 'self' " + (if isDev then "ws: http://localhost:* https:" else "https:")
  }

  function Directives(isDev: bool): (d: seq<string>)
    ensures |d| == 8 && d[0] == "default-src 'self'"
    ensures d[1] == ScriptSrc(isDev) && d[4] == ConnectSrc(isDev)
  {
    [ "default-src 'self'",
      ScriptSrc(isDev),
      "style-src 'self' 'unsafe-inline'",
      "img-src 'self' data: blob: https:",
      ConnectSrc(isDev),
      "font-src 'self' data:",
      "media-src 'self' blob: data:",
      "frame-src 'self'" ]
  }

  /** The two modes differ only in the script and connect directives. */
  lemma ModesDifferOnlyInScriptAndConnect(k: int)
    requires 0 <= k < 8 && k != 1 && k != 4
    ensures Directives(true)[k] == Directives(false)[k]
  {
  }

  /** Anything but "production" counts as development. */
  function Policy(nodeEnv: string): string
  {
    Join(Directives(nodeEnv != "production"), "; ")
  }

  /** The script directive allows eval exactly in development. */
  lemma EvalOnlyInDevelopment(isDev: bool)
    ensures Contains(ScriptSrc(isDev), "'unsafe-eval'") <==> isDev
  {
    var t := "'unsafe-eval'";
    var s := ScriptSrc(isDev);
    if isDev {
      assert OccursAt(s, t, 18);
    } else {
      forall i | 0 <= i <= |s| - |t|
        ensures !OccursAt(s, t, i)
      {
        assert |s| - |t| == 4;
        assert s[i + 1] != 'u';
        assert t[1] == 'u';
      }
    }
  }

  /** Development alone allows websocket connections. */
  lemma WebSocketsOnlyInDevelopment(isDev: bool)
    ensures Contains(ConnectSrc(isDev), "ws:") <==> isDev
  {
    var t := "ws:";
    var s := ConnectSrc(isDev);
    if isDev {
      assert s == "connect-src 'self' ws: http://localhost:* https:";
      assert s[19] == 'w' && s[20] == 's' && s[21] == ':';
      assert s[19..22] == t;
      assert OccursAt(s, t, 19);
    } else {
      forall i | 0 <= i <= |s| - |t|
        ensures !OccursAt(s, t, i)
      {
        assert s[i] != 'w';
        assert t[0] == 'w';
      }
    }
  }

  /** Every part appears in the joined string, in order: the first one
      starts it. */
  lemma {:induction false} JoinContains(parts: seq<string>, sep: string, k: int)
    requires 0 <= k < |parts|
    ensures Contains(Join(parts, sep), parts[k])
    ensures k == 0 ==> StartsWith(Join(parts, sep), parts[0])
  {
    var j := Join(parts, sep);
    if k == 0 {
      assert j[..|parts[0]|] == parts[0];
      assert OccursAt(j, parts[0], 0);
    } else {
      JoinContains(parts[1..], sep, k - 1);
      assert parts[1..][k - 1] == parts[k];
      var rest := Join(parts[1..], sep);
      var i :| 0 <= i <= |rest| && OccursAt(rest, parts[k], i);
      var off := |parts[0]| + |sep|;
      assert j == parts[0] + sep + rest;
      assert j[off + i..off + i + |parts[k]|] == rest[i..i + |parts[k]|];
      assert OccursAt(j, parts[k], off + i);
    }
  }

  /** The policy starts with `default-src 'self'` and carries every
      directive. */
  lemma PolicyCarriesDirectives(nodeEnv: string, k: int)
    requires 0 <= k < 8
    ensures StartsWith(Policy(nodeEnv), "default-src 'self'")
    ensures Contains(Policy(nodeEnv), Directives(nodeEnv != "production")[k])
  {
    JoinContains(Directives(nodeEnv != "production"), "; ", 0);
    JoinContains(Directives(nodeEnv != "production"), "; ", k);
  }

  /** The response: passed through, with the policy header set. */
  datatype Response = Next(headers: map<string, string>)

  const CspHeader: string := "Content-Security-Policy"

  function Middleware(nodeEnv: string): (r: Response)
    ensures CspHeader in r.headers && r.headers[CspHeader] == Policy(nodeEnv)
    ensures r.headers.Keys == {CspHeader}
  {
    Next(map[CspHeader := Policy(nodeEnv)])
  }
}
