/**
 The two URL splitters of src/BotBase.cpp (`parse_host_path`, and the one inside `wait_for_event`)
 and the query text of a poll request, which is written without escaping.
 */
module HostPath {
  import opened ByteStrings

  const HTTPS: Bytes := "https://"
  const HTTP: Bytes := "http://"
  const ROOT: Bytes := "/"

  /** Host and path around the first '/'. */
  function Cut(t: Bytes): (Bytes, Bytes) {
    var slash := IndexOf(t, '/');
    if slash == |t| then (t, ROOT) else (t[..slash], t[slash..])
  }

  /** `parse_host_path`: only "https://" is dropped. */
  function ParseHostPath(url: Bytes): (Bytes, Bytes) {
    Cut(if HTTPS <= url then url[8..] else url)
  }

  /** The splitter of `wait_for_event`: either scheme is dropped. */
  function ServerHostPath(url: Bytes): (Bytes, Bytes) {
    Cut(if HTTPS <= url then url[8..] else if HTTP <= url then url[7..] else url)
  }

  /** The host has no '/', the path starts with one, and together they are the text that was cut. */
  lemma CutParts(t: Bytes)
    ensures '/' !in Cut(t).0
    ensures Cut(t).1 != [] && Cut(t).1[0] == '/'
    ensures Cut(t).0 + Cut(t).1 == (if '/' in t then t else t + "/")
  {
    var slash := IndexOf(t, '/');
    if slash == |t| {
      assert t[..slash] == t;
    } else {
      assert t == t[..slash] + t[slash..];
      assert t[slash] in t;
    }
  }

  lemma CutJoin(host: Bytes, path: Bytes)
    requires '/' !in host && path != [] && path[0] == '/'
    ensures Cut(host + path) == (host, path)
  {
    var t := host + path;
    assert t[..|host|] == host && t[|host|..] == path;
    IndexOfUnique(t, '/', |host|);
  }

  /**
   A host without '/' and a path that starts with '/' come back from the URL made of them: from both
   splitters with "https://" or with no scheme, and from the one of the loop also with "http://".
   */
  lemma HostPathRoundTrip(host: Bytes, path: Bytes)
    requires '/' !in host && path != [] && path[0] == '/'
    ensures ParseHostPath("https://" + (host + path)) == (host, path)
    ensures ServerHostPath("https://" + (host + path)) == (host, path)
    ensures ServerHostPath("http://" + (host + path)) == (host, path)
    ensures !("https://" <= host + path) ==> ParseHostPath(host + path) == (host, path)
    ensures !("https://" <= host + path) && !("http://" <= host + path) ==>
              ServerHostPath(host + path) == (host, path)
  {
    hide Cut;
    var t := host + path;
    CutJoin(host, path);
    assert (HTTPS + t)[..8] == HTTPS && (HTTPS + t)[8..] == t;
    assert (HTTP + t)[..7] == HTTP && (HTTP + t)[7..] == t;
    assert (HTTP + t)[4] == ':' && HTTPS[4] == 's';
  }

  /** The splitters differ on every "http://" URL, and on no other. */
  lemma SplittersAgree(url: Bytes)
    ensures ParseHostPath(url) == ServerHostPath(url) <==> !("http://" <= url)
  {
    if HTTP <= url {
      assert url[4] == HTTP[4] == ':';
      assert !(HTTPS <= url) by {
        assert HTTPS[4] == 's';
      }
      assert forall i :: 0 <= i < 5 ==> url[i] == HTTP[i];
      assert url[5] == HTTP[5] == '/';
      IndexOfUnique(url, '/', 5);
      assert |ParseHostPath(url).1| == |url| - 5;
      CutParts(url[7..]);
      var (host, path) := Cut(url[7..]);
      if '/' in url[7..] {
        assert |host| + |path| == |url| - 7;
      } else {
        assert |path| == 1;
      }
    }
  }

  // ----- the poll query

  const KEY: Bytes := "key="
  const TS: Bytes := "ts="
  const WAIT: Bytes := "wait="
  const ACT: Bytes := "act=a_check"
  const AND_TS: Bytes := "&ts="
  const AND_WAIT: Bytes := "&wait="
  const AND_ACT: Bytes := "&act=a_check"
  const AND: Byte := '&'
  const QUESTION: Bytes := "?"

  function QueryParts(key: Bytes, ts: Bytes, wait: Bytes): seq<Bytes> {
    [KEY + key, TS + ts, WAIT + wait, ACT]
  }

  lemma QueryPartsText(key: Bytes, ts: Bytes, wait: Bytes)
    ensures QueryParts(key, ts, wait) == ["key=" + key, "ts=" + ts, "wait=" + wait, "act=a_check"]
  {
  }

  /** What `wait_for_event` puts behind the '?'. */
  function PollQuery(key: Bytes, ts: Bytes, wait: Bytes): Bytes {
    (KEY + key) + (AND_TS + ts) + (AND_WAIT + wait) + AND_ACT
  }

  lemma PollQueryJoin(key: Bytes, ts: Bytes, wait: Bytes)
    ensures PollQuery(key, ts, wait) == Join(QueryParts(key, ts, wait), AND)
  {
    var a, b, c := KEY + key, TS + ts, WAIT + wait;
    var ps := [a, b, c, ACT];
    assert ps[1..] == [b, c, ACT] && [b, c, ACT][1..] == [c, ACT] && [c, ACT][1..] == [ACT];
    assert Join([c, ACT], AND) == c + [AND] + ACT;
    assert Join([b, c, ACT], AND) == b + [AND] + (c + [AND] + ACT);
    assert Join(ps, AND) == a + [AND] + (b + [AND] + (c + [AND] + ACT));
    assert AND_TS + ts == [AND] + b;
    assert AND_WAIT + wait == [AND] + c;
    assert AND_ACT == [AND] + ACT;
    JoinFour(a, b, c, ACT, [AND]);
  }

  lemma JoinFour(a: Bytes, b: Bytes, c: Bytes, d: Bytes, sep: Bytes)
    ensures a + sep + (b + sep + (c + sep + d)) == a + (sep + b) + (sep + c) + (sep + d)
  {
  }

  /**
   A server that splits the query on '&' sees the four fields as they were meant exactly when none of
   the three texts holds an '&'.
   */
  lemma PollQueryRead(key: Bytes, ts: Bytes, wait: Bytes)
    ensures Split(PollQuery(key, ts, wait), AND) == QueryParts(key, ts, wait)
            <==> AND !in key && AND !in ts && AND !in wait
  {
    var ps := QueryParts(key, ts, wait);
    var q := PollQuery(key, ts, wait);
    PollQueryJoin(key, ts, wait);
    if Split(q, AND) == ps {
      SplitPieces(q, AND);
      assert AND !in ps[0] && AND !in ps[1] && AND !in ps[2];
      assert forall c :: c in key ==> c in ps[0];
      assert forall c :: c in ts ==> c in ps[1];
      assert forall c :: c in wait ==> c in ps[2];
    }
    if AND !in key && AND !in ts && AND !in wait {
      forall i | 0 <= i < 4 ensures AND !in ps[i] {
      }
      SplitJoin(ps, AND);
    }
  }
}
