/**
 The text that the deep-path analyser hashes into its cache key: method, path,
 query and the first 512 body characters, joined by colons without escaping.
 */
module CacheKey {

  const BODY_PREFIX := 512

  datatype RequestContext = RequestContext(verb: string, path: string, query: string, body: string, userAgent: string)

  datatype KeyFields = KeyFields(verb: string, path: string, query: string, bodyHead: string)

  function Fields(ctx: RequestContext): KeyFields {
    KeyFields(ctx.verb, ctx.path, ctx.query,
              if |ctx.body| <= BODY_PREFIX then ctx.body else ctx.body[..BODY_PREFIX])
  }

  function Join(f: KeyFields): string {
    f.verb + ":" + (f.path + ":" + (f.query + ":" + f.bodyHead))
  }

  function Content(ctx: RequestContext): string { Join(Fields(ctx)) }

  predicate HasColon(f: KeyFields) { ':' in f.path || ':' in f.query || ':' in f.bodyHead }

  predicate Rooted(path: string) { path != "" && path[0] == '/' }

  /** Other key fields, with the same method and a rooted path, give the same text. */
  ghost predicate Ambiguous(f: KeyFields) {
    exists g :: g != f && g.verb == f.verb && (Rooted(f.path) ==> Rooted(g.path))
                && |g.bodyHead| <= BODY_PREFIX && Join(g) == Join(f)
  }

  function Colons(s: string): nat {
    if s == "" then 0 else (if s[0] == ':' then 1 else 0) + Colons(s[1..])
  }

  lemma {:induction false} ColonsAppend(a: string, b: string)
    ensures Colons(a + b) == Colons(a) + Colons(b)
  {
    if a == "" {
      assert a + b == b;
    } else {
      assert (a + b)[1..] == a[1..] + b;
      ColonsAppend(a[1..], b);
    }
  }

  lemma {:induction false} ColonsZero(s: string)
    ensures Colons(s) == 0 <==> ':' !in s
  {
    if s != "" {
      ColonsZero(s[1..]);
      assert s == [s[0]] + s[1..];
    }
  }

  lemma JoinColons(f: KeyFields)
    ensures Colons(Join(f)) == 3 + Colons(f.verb) + Colons(f.path) + Colons(f.query) + Colons(f.bodyHead)
  {
    var tail1 := f.query + ":" + f.bodyHead;
    var tail2 := f.path + ":" + tail1;
    assert Colons(":") == 1;
    ColonsAppend(f.query + ":", f.bodyHead);
    ColonsAppend(f.query, ":");
    ColonsAppend(f.path + ":", tail1);
    ColonsAppend(f.path, ":");
    ColonsAppend(f.verb + ":", tail2);
    ColonsAppend(f.verb, ":");
  }

  lemma SplitAtFirstColon(a: string, b: string, c: string, d: string)
    requires a + ":" + b == c + ":" + d
    requires ':' !in a && ':' !in c
    ensures a == c && b == d
  {
    var s := a + ":" + b;
    assert s[|a|] == ':' && s[|c|] == ':';
    assert forall i :: 0 <= i < |a| ==> s[i] == a[i];
    assert forall i :: 0 <= i < |c| ==> s[i] == c[i];
    assert |a| == |c|;
    assert a == s[..|a|] && c == s[..|c|];
    assert b == s[|a| + 1..] && d == s[|c| + 1..];
  }

  /** Without a colon in method, path or query the key text determines all four fields. */
  lemma ColonFreeHeadDetermines(f: KeyFields, g: KeyFields)
    requires ':' !in f.verb && ':' !in f.path && ':' !in f.query
    requires ':' !in g.verb && ':' !in g.path && ':' !in g.query
    requires Join(f) == Join(g)
    ensures f == g
  {
    SplitAtFirstColon(f.verb, f.path + ":" + (f.query + ":" + f.bodyHead),
                      g.verb, g.path + ":" + (g.query + ":" + g.bodyHead));
    SplitAtFirstColon(f.path, f.query + ":" + f.bodyHead, g.path, g.query + ":" + g.bodyHead);
    SplitAtFirstColon(f.query, f.bodyHead, g.query, g.bodyHead);
  }

  /** The first 512 characters are the same, as far as there are any. */
  predicate SameHead(a: string, b: string) {
    && (|a| == |b| || (|a| >= 512 && |b| >= 512))
    && forall i: nat :: i < 512 && i < |a| && i < |b| ==> a[i] == b[i]
  }

  lemma SameHeadIff(a: string, b: string)
    ensures SameHead(a, b)
       <==> (if |a| <= BODY_PREFIX then a else a[..BODY_PREFIX]) == (if |b| <= BODY_PREFIX then b else b[..BODY_PREFIX])
  {
    var x, y := if |a| <= BODY_PREFIX then a else a[..BODY_PREFIX], if |b| <= BODY_PREFIX then b else b[..BODY_PREFIX];
    if SameHead(a, b) {
      assert |x| == |y|;
      assert forall i: nat :: i < |x| ==> x[i] == a[i] && y[i] == b[i];
    }
    if x == y {
      assert forall i: nat :: i < |x| ==> x[i] == a[i] && x[i] == b[i];
    }
  }

  predicate ColonFreeHead(ctx: RequestContext) { ':' !in ctx.verb && ':' !in ctx.path && ':' !in ctx.query }

  /**
   Which parts of a request its key text holds: method, path, query and the first
   512 body characters, all of them and nothing else.
   */
  lemma SameTextIff(a: RequestContext, b: RequestContext)
    requires ColonFreeHead(a) && ColonFreeHead(b)
    ensures Content(a) == Content(b)
       <==> a.verb == b.verb && a.path == b.path && a.query == b.query && SameHead(a.body, b.body)
  {
    SameHeadIff(a.body, b.body);
    if Content(a) == Content(b) {
      ColonFreeHeadDetermines(Fields(a), Fields(b));
    }
  }

  lemma CutAtColon(s: string) returns (left: string, right: string)
    requires ':' in s
    ensures s == left + ":" + right
  {
    var i :| 0 <= i < |s| && s[i] == ':';
    left, right := s[..i], s[i + 1..];
  }

  /** Moving a field boundary to any colon inside a field keeps the text. */
  lemma ColonMakesAmbiguous(f: KeyFields)
    requires |f.bodyHead| <= BODY_PREFIX && HasColon(f)
    ensures Ambiguous(f)
  {
    var g: KeyFields;
    if ':' in f.bodyHead {
      var l, r := CutAtColon(f.bodyHead);
      g := KeyFields(f.verb, f.path, f.query + ":" + l, r);
      assert f.query + ":" + (l + ":" + r) == (f.query + ":" + l) + ":" + r;
    } else if ':' in f.query {
      var l, r := CutAtColon(f.query);
      g := KeyFields(f.verb, f.path + ":" + l, r, f.bodyHead);
      assert f.path + ":" + ((l + ":" + r) + ":" + f.bodyHead) == (f.path + ":" + l) + ":" + (r + ":" + f.bodyHead);
    } else {
      var l, r := CutAtColon(f.path);
      g := KeyFields(f.verb, l, r + ":" + f.query, f.bodyHead);
      assert (l + ":" + r) + ":" + (f.query + ":" + f.bodyHead) == l + ":" + ((r + ":" + f.query) + ":" + f.bodyHead);
    }
    assert Join(g) == Join(f);
    assert |g.bodyHead| <= BODY_PREFIX && g != f;
  }

  /**
   A request shares its key text with a different one of the same method exactly
   when its path, query or body head contains a colon. Methods have none.
   */
  lemma AmbiguousIffColon(f: KeyFields)
    requires ':' !in f.verb && |f.bodyHead| <= BODY_PREFIX
    ensures Ambiguous(f) <==> HasColon(f)
  {
    if HasColon(f) {
      ColonMakesAmbiguous(f);
    } else {
      forall g: KeyFields | g.verb == f.verb && Join(g) == Join(f)
        ensures g == f
      {
        JoinColons(f);
        JoinColons(g);
        ColonsZero(f.verb); ColonsZero(f.path); ColonsZero(f.query); ColonsZero(f.bodyHead);
        ColonsZero(g.verb); ColonsZero(g.path); ColonsZero(g.query);
        ColonFreeHeadDetermines(f, g);
      }
    }
  }
}
