/** The `--pools` value: `queue1,queue2:workers/queue3:workers`, parsed by
    `Delayed::Command#parse_worker_pools` into an ordered list of
    (queues, worker count) pairs. */
module Pools {
  import opened RubyText

  /** One worker pool. `queues == []` means "every queue". */
  datatype Pool = Pool(queues: seq<string>, count: int)

  /** The queue part of a pool: `*`, the empty text and a missing part all
      mean every queue; anything else is split on `,`, untrimmed. So the
      list is empty (every queue) exactly when the part is missing, `*`, or
      nothing but commas. */
  function QueueList(part: Option<string>): (queues: seq<string>)
    ensures forall i :: 0 <= i < |queues| ==> ',' !in queues[i]
    ensures queues == [] <==>
      part.None? || part.value == "*" || forall i :: 0 <= i < |part.value| ==> part.value[i] == ','
  {
    match part
    case None => []
    case Some(q) =>
      SplitEmpty(q, ',');
      if q == "*" || q == "" then [] else Split(q, ',')
  }

  /** One `/`-separated segment: `queues, worker_count = pool.split(':')`
      takes the first two `:`-fields (nil when missing) and ignores the rest;
      the count is `worker_count.to_i`, whose `rescue 1` can never fire. A
      segment without `:` is all queue list, with 0 workers. */
  function ParsePool(pool: string): (p: Pool)
    ensures forall i :: 0 <= i < |p.queues| ==> ',' !in p.queues[i]
    ensures ':' !in pool ==> p == Pool(QueueList(Some(pool)), 0)
  {
    SplitOneField(pool, ':');
    var parts := Split(pool, ':');
    var queuesPart := if |parts| > 0 then Some(parts[0]) else None;
    var countPart := if |parts| > 1 then Some(parts[1]) else None;
    Pool(QueueList(queuesPart), NilToI(countPart))
  }

  /** `pools.split('/').map { ... }`: no pool at all exactly when the text is
      empty or nothing but slashes. */
  function ParseWorkerPools(pools: string): (ps: seq<Pool>)
    ensures ps == [] <==> forall i :: 0 <= i < |pools| ==> pools[i] == '/'
  {
    SplitEmpty(pools, '/');
    var segments := Split(pools, '/');
    seq(|segments|, i requires 0 <= i < |segments| => ParsePool(segments[i]))
  }

  // ---------------------------------------------------------------------
  // What a segment's fields become
  // ---------------------------------------------------------------------

  /** The count is `to_i` of the text between the first and the second `:`
      (0 when it is empty or not a number); whatever follows is ignored. */
  lemma PoolCountField(q: string, c: string, tail: string)
    requires ':' !in q && ':' !in c
    requires tail == "" || tail[0] == ':'
    ensures ParsePool(q + [':'] + c + tail).count == ToI(c)
  {
    var pool := q + [':'] + c + tail;
    assert pool == q + [':'] + (c + tail);
    SplitAllCons(q, ':', c + tail);
    var rest := SplitAll(c + tail, ':');
    if tail == "" {
      assert c + tail == c;
      SplitAllSingle(c, ':');
    } else {
      assert c + tail == c + [':'] + tail[1..];
      SplitAllCons(c, ':', tail[1..]);
    }
    assert rest[0] == c;
    var all := SplitAll(pool, ':');
    assert all[1] == c;
    var parts := Split(pool, ':');
    if c != "" {
      assert |parts| > 1;
    }
  }

  /** The queue list comes from the text before the first `:`. */
  lemma PoolQueuesField(q: string, tail: string)
    requires ':' !in q
    requires tail == "" || tail[0] == ':'
    ensures ParsePool(q + tail).queues == if q == "*" || q == "" then [] else Split(q, ',')
    ensures tail == "" ==> ParsePool(q + tail).count == 0
  {
    var pool := q + tail;
    if tail == "" {
      assert pool == q;
      SplitAllSingle(q, ':');
    } else {
      assert pool == q + [':'] + tail[1..];
      SplitAllCons(q, ':', tail[1..]);
    }
    var all := SplitAll(pool, ':');
    assert all[0] == q;
    var parts := Split(pool, ':');
    if q != "" {
      assert |parts| > 0;
    }
  }

  /** One pool per `/`-separated segment, in input order, once `split` has
      dropped the empty segments at the end. */
  lemma ParseWorkerPoolsSegments(segments: seq<string>)
    requires forall i :: 0 <= i < |segments| ==> '/' !in segments[i]
    ensures var kept := DropTrailingEmpty(segments);
      ParseWorkerPools(Join(segments, '/'))
        == seq(|kept|, i requires 0 <= i < |kept| => ParsePool(kept[i]))
  {
    SplitJoin(segments, '/');
  }

  /** A trailing `/` adds no pool: `a:1/` parses like `a:1`. */
  lemma ParseWorkerPoolsTrailingSlash(pools: string)
    ensures ParseWorkerPools(pools + "/") == ParseWorkerPools(pools)
  {
    SplitTrailingSeparator(pools, '/');
  }

  // ---------------------------------------------------------------------
  // Printing pools, and the round trip
  // ---------------------------------------------------------------------

  predicate ValidQueueName(q: string)
  {
    q != "" && ',' !in q && ':' !in q && '/' !in q
  }

  /** A pool the `--pools` syntax can express: names are non-empty and free
      of the three separators, and the list is not the lone name `*`. */
  predicate Expressible(p: Pool)
  {
    (forall i :: 0 <= i < |p.queues| ==> ValidQueueName(p.queues[i])) && p.queues != ["*"]
  }

  function QueueText(queues: seq<string>): string
  {
    if queues == [] then "*" else Join(queues, ',')
  }

  function RenderPool(p: Pool): string
  {
    QueueText(p.queues) + [':'] + IntToString(p.count)
  }

  function RenderPools(ps: seq<Pool>): string
  {
    Join(seq(|ps|, i requires 0 <= i < |ps| => RenderPool(ps[i])), '/')
  }

  lemma QueueTextFacts(queues: seq<string>)
    requires forall i :: 0 <= i < |queues| ==> ValidQueueName(queues[i])
    requires queues != ["*"]
    ensures ':' !in QueueText(queues) && '/' !in QueueText(queues)
    ensures queues != [] ==> QueueText(queues) != "" && QueueText(queues) != "*"
    ensures queues != [] ==> Split(QueueText(queues), ',') == queues
  {
    if queues != [] {
      JoinAvoids(queues, ',', ':');
      JoinAvoids(queues, ',', '/');
      SplitJoin(queues, ',');
      if |queues| >= 2 {
        assert |Join(queues, ',')| >= 2;
      }
    }
  }

  /** Parsing a printed pool gives it back. */
  lemma ParseRenderPool(p: Pool)
    requires Expressible(p)
    ensures ParsePool(RenderPool(p)) == p
    ensures '/' !in RenderPool(p) && RenderPool(p) != ""
  {
    var q := QueueText(p.queues);
    var c := IntToString(p.count);
    QueueTextFacts(p.queues);
    assert '/' !in c && ':' !in c;
    RenderedCount(q, c);
    RenderedQueues(q, c);
    ToIOfIntToString(p.count);
  }

  lemma RenderedCount(q: string, c: string)
    requires ':' !in q && ':' !in c
    ensures ParsePool(q + [':'] + c).count == ToI(c)
  {
    assert q + [':'] + c == q + [':'] + c + "";
    PoolCountField(q, c, "");
  }

  lemma RenderedQueues(q: string, c: string)
    requires ':' !in q
    ensures ParsePool(q + [':'] + c).queues == if q == "*" || q == "" then [] else Split(q, ',')
  {
    assert q + [':'] + c == q + ([':'] + c);
    PoolQueuesField(q, [':'] + c);
  }

  /** Parsing the printed form of any expressible pool list gives the list
      back: the parser loses nothing and invents nothing. */
  lemma ParseRenderPools(ps: seq<Pool>)
    requires forall i :: 0 <= i < |ps| ==> Expressible(ps[i])
    ensures ParseWorkerPools(RenderPools(ps)) == ps
  {
    var rendered := seq(|ps|, i requires 0 <= i < |ps| => RenderPool(ps[i]));
    forall i | 0 <= i < |ps|
      ensures ParsePool(rendered[i]) == ps[i]
      ensures '/' !in rendered[i] && rendered[i] != ""
    {
      ParseRenderPool(ps[i]);
    }
    ParseWorkerPoolsSegments(rendered);
  }

  // ---------------------------------------------------------------------
  // Worked examples of the code's behaviour
  // ---------------------------------------------------------------------

  /** The pool text `a: 3x`: the count is read the way `to_i` reads it,
      blanks before it and anything after its digits ignored, while the
      queue name is kept as written. The two parts are parameters fixed by
      `requires`, so that `ParsePool` is reasoned about through the general
      lemmas above instead of being evaluated on a literal. */
  lemma SpacedCountExample(q: string, c: string)
    requires q == "a" && c == " 3x"
    ensures ParsePool(q + [':'] + c) == Pool([q], 3)
  {
    SpacedCountField(q, c);
    SpacedQueueField(q, c);
  }

  /** The count part ` 3x` of the example reads as 3, whatever the queue part. */
  lemma SpacedCountField(q: string, c: string)
    requires ':' !in q && c == " 3x"
    ensures ParsePool(q + [':'] + c).count == 3
  {
    SpacedCount(c);
    RenderedCount(q, c);
  }

  /** The queue part `a` of the example is the one queue `a`, whatever the count part. */
  lemma SpacedQueueField(q: string, c: string)
    requires q == "a"
    ensures ParsePool(q + [':'] + c).queues == [q]
  {
    RenderedQueues(q, c);
    SplitOneField(q, ',');
  }

  /** `" 3x".to_i` is 3: the blank is skipped and the `x` ends the number. */
  lemma SpacedCount(c: string)
    requires c == " 3x"
    ensures ToI(c) == 3 && ':' !in c
  {
    var ds := "3";
    assert AllDigits(ds) && DecimalValue(ds) == 3;
    assert EndsNumber("x");
    assert c == " " + "" + ds + "x";
    ToIOfLeadingNumber(c, " ", "", ds, "x");
  }

  /** A bare number is a queue name, and the missing count is 0, not 1. */
  lemma BareNumberIsQueue()
    ensures ParsePool("3") == Pool(["3"], 0)
  {
    PoolQueuesField("3", "");
    SplitJoin(["3"], ',');
  }

  lemma RenderExamplePools(ps: seq<Pool>)
    requires ps == [Pool(["a", "b"], 2), Pool([], 1)]
    ensures RenderPools(ps) == "a,b:2/*:1"
    ensures forall i :: 0 <= i < |ps| ==> Expressible(ps[i])
  {
    assert RenderPool(ps[0]) == "a,b:2" by {
      assert Join(["a", "b"], ',') == "a,b";
      assert IntToString(2) == "2";
    }
    assert RenderPool(ps[1]) == "*:1" by {
      assert IntToString(1) == "1";
    }
    var rendered := seq(2, i requires 0 <= i < 2 => RenderPool(ps[i]));
    assert rendered == ["a,b:2", "*:1"];
    assert Join(rendered, '/') == "a,b:2/*:1";
  }

  // The text "a,b:2" + "/" + "*:1" is two pools: queues a and b with two
  // workers, then every queue with one.
  lemma TwoPoolExample(text: string)
    requires text == "a,b:2/*:1"
    ensures ParseWorkerPools(text) == [Pool(["a", "b"], 2), Pool([], 1)]
  {
    var ps := [Pool(["a", "b"], 2), Pool([], 1)];
    RenderExamplePools(ps);
    ParseRenderPools(ps);
  }
}
