/** The request encoder: the ordered query pairs the transit search sends, built from a
    `TransitArgs`, and how the search page's echoed query reads them back. */
module Yxhoo {
  import opened Wrappers
  import opened Text
  import opened Calendar
  import opened Json
  import opened Args
  import opened Parser

  /** One query parameter, key and value. */
  type Pair = (string, string)

  /** The six transport-mean flag keys, in the order they are sent. */
  const FlagKeys: seq<string> := ["al", "shin", "ex", "hb", "lb", "sr"]

  /** The flag keys as a set: without options every mean is allowed. */
  const AllFlagKeys: set<string> := {"al", "shin", "ex", "hb", "lb", "sr"}

  /** The keys every query starts with, in order. */
  const HeadKeys: seq<string> := ["from", "to", "y", "m", "d", "hh", "m1", "m2", "type", "s", "no"]

  /** `minute_digits`: the tens and the ones digit of a minute. */
  function MinuteDigits(min: nat): (r: (nat, nat))
    ensures r.0 * 10 + r.1 == min && r.1 < 10
    ensures min < 60 ==> r.0 < 6
  {
    (min / 10, min % 10)
  }

  // ---------------------------------------------------------------- the query as a value

  function Keys(q: seq<Pair>): (r: seq<string>)
    ensures |r| == |q| && forall i :: 0 <= i < |q| ==> r[i] == q[i].0
  {
    seq(|q|, i requires 0 <= i < |q| => q[i].0)
  }

  /** The keys of the allowed means. */
  function MeanKeys(means: seq<AvailableMeans>): (r: set<string>)
    ensures forall m :: m in means ==> m.AsStr() in r
  {
    set m | m in means :: m.AsStr()
  }

  /** One flag per key, in order: "1" for a key in `on`, "0" for any other. */
  function FlagPairs(keys: seq<string>, on: set<string>): (r: seq<Pair>)
    ensures |r| == |keys|
    ensures forall i :: 0 <= i < |keys| ==> r[i].0 == keys[i] && (r[i].1 == "1" <==> keys[i] in on)
    ensures forall i :: 0 <= i < |keys| ==> r[i].1 in {"0", "1"}
    decreases |keys|
  {
    if keys == [] then []
    else
      var n := |keys| - 1;
      FlagPairs(keys[..n], on) + [(keys[n], if keys[n] in on then "1" else "0")]
  }

  /** The pairs every query starts with: places, the date's local fields, kind, criteria, rank. */
  function HeadPairs(args: TransitArgs): (r: seq<Pair>)
    requires ValidArgs(args)
    ensures |r| == |HeadKeys| && forall i :: 0 <= i < |r| ==> r[i].0 == HeadKeys[i]
    ensures r[0].1 == args.from && r[1].1 == args.to && r[10].1 == NatToString(args.rank)
  {
    var dt := args.date;
    var (m1, m2) := MinuteDigits(dt.time.minute);
    [("from", args.from), ("to", args.to),
     ("y", IntToString(dt.date.year)), ("m", NatToString(dt.date.month)), ("d", NatToString(dt.date.day)),
     ("hh", NatToString(dt.time.hour)), ("m1", NatToString(m1)), ("m2", NatToString(m2)),
     ("type", NatToString(args.dateKind.AsU32())),
     ("s", NatToString(args.criteria.GetOr(DefaultCriteria()).AsU32())),
     ("no", NatToString(args.rank))]
  }

  /** The preferences that are present, in the order ticket, seat, walking speed. */
  function PreferencePairs(o: TransitOptions): (r: seq<Pair>)
    ensures |r| <= 3
  {
    (if o.ticketPreference.Some? then [("ticket", o.ticketPreference.value.AsStr())] else [])
    + (if o.seatPreference.Some? then [("expkind", NatToString(o.seatPreference.value.AsU32()))] else [])
    + (if o.walkingSpeed.Some? then [("ws", NatToString(o.walkingSpeed.value.AsU32()))] else [])
  }

  /** The pairs after the head: the given options, or every default with every mean allowed. */
  function TailPairs(options: Option<TransitOptions>): (r: seq<Pair>)
    ensures |FlagKeys| <= |r| <= |FlagKeys| + 3
    ensures options.None? ==> |r| == |FlagKeys| + 3
  {
    match options
    case Some(o) => PreferencePairs(o) + FlagPairs(FlagKeys, MeanKeys(o.availableMeans))
    case None =>
      [("ticket", DefaultTicketPreference().AsStr()),
       ("expkind", NatToString(DefaultSeatPreference().AsU32())),
       ("ws", NatToString(DefaultWalkingSpeed().AsU32()))]
      + FlagPairs(FlagKeys, AllFlagKeys)
  }

  /** The query the search request carries. */
  function QueryOf(args: TransitArgs): (r: seq<Pair>)
    requires ValidArgs(args)
    ensures |HeadKeys| + |FlagKeys| <= |r| <= |HeadKeys| + 3 + |FlagKeys|
    ensures forall i :: 0 <= i < |HeadKeys| ==> r[i].0 == HeadKeys[i]
  {
    HeadPairs(args) + TailPairs(args.options)
  }

  /** The first pushes of `transit`: places, date fields, kind, criteria and rank. */
  method PushHead(args: TransitArgs) returns (q: seq<Pair>)
    requires ValidArgs(args)
    ensures q == HeadPairs(args)
  {
    q := [];
    q := q + [("from", args.from)];
    q := q + [("to", args.to)];

    var dt := args.date;
    q := q + [("y", IntToString(dt.date.year))];
    q := q + [("m", NatToString(dt.date.month))];
    q := q + [("d", NatToString(dt.date.day))];
    q := q + [("hh", NatToString(dt.time.hour))];

    var (m1, m2) := MinuteDigits(dt.time.minute);
    q := q + [("m1", NatToString(m1))];
    q := q + [("m2", NatToString(m2))];

    q := q + [("type", NatToString(args.dateKind.AsU32()))];

    var s := args.criteria.GetOr(DefaultCriteria()).AsU32();
    q := q + [("s", NatToString(s))];

    q := q + [("no", NatToString(args.rank))];
  }

  /** The flag loop of the `Some(opt)` branch: one push per flag key, "1" exactly for the keys
      in `on`. */
  method PushFlags(q0: seq<Pair>, on: set<string>) returns (q: seq<Pair>)
    ensures q == q0 + FlagPairs(FlagKeys, on)
  {
    q := q0;
    for i := 0 to |FlagKeys|
      invariant q == q0 + FlagPairs(FlagKeys[..i], on)
    {
      var key := FlagKeys[i];
      var v := if key in on then "1" else "0";
      assert FlagKeys[..i + 1][..i] == FlagKeys[..i];
      q := q + [(key, v)];
    }
    assert FlagKeys[..|FlagKeys|] == FlagKeys;
  }

  /** The `Some(opt)` branch of `transit`: the preferences that are present, then the flags of
      the allowed means. */
  method PushOptions(q0: seq<Pair>, opt: TransitOptions) returns (q: seq<Pair>)
    ensures q == q0 + TailPairs(Some(opt))
  {
    q := q0;
    if opt.ticketPreference.Some? {
      q := q + [("ticket", opt.ticketPreference.value.AsStr())];
    }
    if opt.seatPreference.Some? {
      q := q + [("expkind", NatToString(opt.seatPreference.value.AsU32()))];
    }
    if opt.walkingSpeed.Some? {
      q := q + [("ws", NatToString(opt.walkingSpeed.value.AsU32()))];
    }
    assert q == q0 + PreferencePairs(opt);
    var on := MeanKeys(opt.availableMeans);
    q := PushFlags(q, on);
    AppendAssoc(q0, PreferencePairs(opt), FlagPairs(FlagKeys, on));
  }

  /** The `None` branch of `transit`: every preference at its default, then every flag "1". */
  method PushDefaults(q0: seq<Pair>) returns (q: seq<Pair>)
    ensures q == q0 + TailPairs(None)
  {
    q := q0;
    q := q + [("ticket", DefaultTicketPreference().AsStr())];
    q := q + [("expkind", NatToString(DefaultSeatPreference().AsU32()))];
    q := q + [("ws", NatToString(DefaultWalkingSpeed().AsU32()))];
    ghost var before := q;
    ghost var defaults := TailPairs(None)[..3];
    assert before == q0 + defaults;
    for i := 0 to |FlagKeys|
      invariant q == before + FlagPairs(FlagKeys[..i], AllFlagKeys)
    {
      assert FlagKeys[..i + 1][..i] == FlagKeys[..i];
      q := q + [(FlagKeys[i], "1")];
    }
    assert FlagKeys[..|FlagKeys|] == FlagKeys;
    assert TailPairs(None) == defaults + FlagPairs(FlagKeys, AllFlagKeys);
    AppendAssoc(q0, defaults, FlagPairs(FlagKeys, AllFlagKeys));
  }

  /** The query-building part of `transit`: the head, then the options or their defaults. */
  method BuildQuery(args: TransitArgs) returns (q: seq<Pair>)
    requires ValidArgs(args)
    ensures q == QueryOf(args)
  {
    q := PushHead(args);
    match args.options
    case Some(opt) => q := PushOptions(q, opt);
    case None => q := PushDefaults(q);
  }

  lemma AppendAssoc(a: seq<Pair>, b: seq<Pair>, c: seq<Pair>)
    ensures (a + b) + c == a + (b + c)
  {
  }

  // ---------------------------------------------------------------- reading a query back

  /** The value of the first pair with the given key. */
  function Lookup(q: seq<Pair>, key: string): (r: Option<string>)
    ensures r.Some? ==> (key, r.value) in q
    ensures r.None? <==> key !in Keys(q)
    decreases |q|
  {
    if q == [] then None
    else
      var n := |q| - 1;
      assert Keys(q) == Keys(q[..n]) + [q[n].0];
      var first := Lookup(q[..n], key);
      if first.Some? then first
      else if q[n].0 == key then Some(q[n].1)
      else None
  }

  /** The value of a key is the one at its first occurrence. */
  lemma {:induction false} LookupFirst(q: seq<Pair>, i: nat, key: string)
    requires i < |q| && q[i].0 == key
    requires forall j :: 0 <= j < i ==> q[j].0 != key
    ensures Lookup(q, key) == Some(q[i].1)
    decreases |q|
  {
    var n := |q| - 1;
    if i < n {
      LookupFirst(q[..n], i, key);
    } else {
      assert key !in Keys(q[..n]);
    }
  }

  /** Where a key first occurs. */
  function FirstIndex(q: seq<Pair>, key: string): (i: nat)
    requires key in Keys(q)
    ensures i < |q| && q[i].0 == key
    ensures forall j :: 0 <= j < i ==> q[j].0 != key
    decreases |q|
  {
    var n := |q| - 1;
    assert Keys(q) == Keys(q[..n]) + [q[n].0];
    if key in Keys(q[..n]) then FirstIndex(q[..n], key) else n
  }

  /** In a query made of two parts, a key is read from the first part when it is there. */
  lemma LookupAppend(a: seq<Pair>, b: seq<Pair>, key: string)
    ensures Lookup(a + b, key) == if key in Keys(a) then Lookup(a, key) else Lookup(b, key)
  {
    if key in Keys(a) {
      var i := FirstIndex(a, key);
      LookupFirst(a, i, key);
      LookupFirst(a + b, i, key);
    } else if key in Keys(b) {
      var i := FirstIndex(b, key);
      LookupFirst(b, i, key);
      assert forall j :: 0 <= j < |a| ==> a[j].0 != key by {
        forall j | 0 <= j < |a| ensures a[j].0 != key { assert Keys(a)[j] == a[j].0; }
      }
      LookupFirst(a + b, |a| + i, key);
    } else {
      assert key !in Keys(a + b) by {
        forall j | 0 <= j < |a + b| ensures (a + b)[j].0 != key {
          if j < |a| { assert Keys(a)[j] == a[j].0; } else { assert Keys(b)[j - |a|] == b[j - |a|].0; }
        }
      }
    }
  }

  lemma KeysAppend(a: seq<Pair>, b: seq<Pair>)
    ensures Keys(a + b) == Keys(a) + Keys(b)
  {
  }

  /** The search page's `pageQuery` echoing a request query: a JSON object whose member under
      each key sent is the string first sent under it. */
  function EchoedQuery(q: seq<Pair>): (r: Value)
    ensures r.Object?
    ensures forall key :: key in r.fields <==> Lookup(q, key).Some?
    ensures forall key :: key in r.fields ==> r.fields[key] == Str(Lookup(q, key).value)
  {
    var keys := set j | 0 <= j < |q| :: q[j].0;
    assert forall key :: Lookup(q, key).Some? ==> key in keys by {
      forall key | Lookup(q, key).Some?
        ensures key in keys
      {
        var j :| 0 <= j < |q| && q[j] == (key, Lookup(q, key).value);
      }
    }
    Object(map key | key in keys && Lookup(q, key).Some? :: Str(Lookup(q, key).value))
  }

  // ---------------------------------------------------------------- the parts of a query

  /** Where each mean's flag stands among the flag keys. */
  function FlagIndex(m: AvailableMeans): (i: nat)
    ensures i < |FlagKeys| && FlagKeys[i] == m.AsStr()
  {
    match m
    case Airlane => 0
    case Shinkansen => 1
    case PaidExpress => 2
    case HighwayBus => 3
    case Bus => 4
    case Ferry => 5
  }

  lemma HeadKeysOf(args: TransitArgs)
    requires ValidArgs(args)
    ensures Keys(HeadPairs(args)) == HeadKeys
  {
  }

  /** A key of the head is read from the head, any other key from the tail. */
  lemma QueryLookup(args: TransitArgs, key: string)
    requires ValidArgs(args)
    ensures Lookup(QueryOf(args), key) ==
      if key in HeadKeys then Lookup(HeadPairs(args), key) else Lookup(TailPairs(args.options), key)
  {
    HeadKeysOf(args);
    LookupAppend(HeadPairs(args), TailPairs(args.options), key);
  }

  lemma HeadKeysDistinct(i: nat, j: nat)
    requires j < i < |HeadKeys|
    ensures HeadKeys[j] != HeadKeys[i]
  {
  }

  /** Every key of the head is read at its own position: the head has no repeated key. */
  lemma HeadLookup(args: TransitArgs, i: nat)
    requires ValidArgs(args) && i < |HeadKeys|
    ensures Lookup(QueryOf(args), HeadKeys[i]) == Some(HeadPairs(args)[i].1)
  {
    var q := HeadPairs(args);
    HeadKeysOf(args);
    forall j | 0 <= j < i
      ensures q[j].0 != HeadKeys[i]
    {
      assert Keys(q)[j] == HeadKeys[j];
      HeadKeysDistinct(i, j);
    }
    LookupFirst(q, i, HeadKeys[i]);
    QueryLookup(args, HeadKeys[i]);
  }

  lemma FlagKeysOf(on: set<string>)
    ensures Keys(FlagPairs(FlagKeys, on)) == FlagKeys
  {
  }

  /** The six flags carry one value per mean: "1" exactly for the keys switched on. */
  lemma FlagLookup(on: set<string>, m: AvailableMeans)
    ensures Lookup(FlagPairs(FlagKeys, on), m.AsStr()) == Some(if m.AsStr() in on then "1" else "0")
  {
    var flags := FlagPairs(FlagKeys, on);
    var i := FlagIndex(m);
    assert forall j :: 0 <= j < i ==> FlagKeys[j] != m.AsStr();
    LookupFirst(flags, i, m.AsStr());
  }

  // ---------------------------------------------------------------- properties of the query

  /** The query starts with from, to, y, m, d, hh, m1, m2, type, s, no; the places are sent
      verbatim, the kind, criteria and rank as their decimal codes. */
  lemma QueryHead(args: TransitArgs)
    requires ValidArgs(args)
    ensures |QueryOf(args)| >= |HeadKeys|
    ensures Keys(QueryOf(args))[..|HeadKeys|] == HeadKeys
    ensures QueryOf(args)[0].1 == args.from && QueryOf(args)[1].1 == args.to
    ensures QueryOf(args)[8].1 == NatToString(args.dateKind.AsU32())
    ensures QueryOf(args)[9].1 == NatToString(args.criteria.GetOr(DefaultCriteria()).AsU32())
    ensures QueryOf(args)[10].1 == NatToString(args.rank)
  {
    var q := QueryOf(args);
    HeadKeysOf(args);
    KeysAppend(HeadPairs(args), TailPairs(args.options));
    assert Keys(q)[..11] == Keys(HeadPairs(args));
  }

  /** Without criteria, the query asks for earliest arrival, code "0". */
  lemma DefaultCriteriaQuery(args: TransitArgs)
    requires ValidArgs(args) && args.criteria.None?
    ensures QueryOf(args)[9] == ("s", "0")
  {
    assert QueryOf(args)[9] == HeadPairs(args)[9];
  }

  /** Without options, the query ends with ticket=normal, expkind=1, ws=3 and every flag "1",
      twenty pairs in all. */
  lemma NoOptionsQuery(args: TransitArgs)
    requires ValidArgs(args) && args.options.None?
    ensures |QueryOf(args)| == 20
    ensures QueryOf(args)[11..] ==
      [("ticket", "normal"), ("expkind", "1"), ("ws", "3"),
       ("al", "1"), ("shin", "1"), ("ex", "1"), ("hb", "1"), ("lb", "1"), ("sr", "1")]
  {
    var flags := FlagPairs(FlagKeys, set k | k in FlagKeys);
    assert flags == [("al", "1"), ("shin", "1"), ("ex", "1"), ("hb", "1"), ("lb", "1"), ("sr", "1")];
    assert QueryOf(args)[11..] == TailPairs(args.options);
  }

  /** The pairs after the eleven of the head are the tail. */
  lemma QueryTail(args: TransitArgs)
    requires ValidArgs(args)
    ensures QueryOf(args)[|HeadKeys|..] == TailPairs(args.options)
  {
    assert |HeadPairs(args)| == |HeadKeys|;
  }

  /** The preferences are keyed ticket, expkind, ws, each present exactly when it is set. */
  lemma PreferenceKeys(o: TransitOptions)
    ensures Keys(PreferencePairs(o)) ==
      (if o.ticketPreference.Some? then ["ticket"] else [])
      + (if o.seatPreference.Some? then ["expkind"] else [])
      + (if o.walkingSpeed.Some? then ["ws"] else [])
  {
  }

  /** With options, the tail holds ticket, expkind and ws exactly for the preferences present,
      then the six flags in the order al, shin, ex, hb, lb, sr. */
  lemma ExplicitOptionsKeys(args: TransitArgs, o: TransitOptions)
    requires ValidArgs(args) && args.options == Some(o)
    ensures Keys(QueryOf(args)[11..]) ==
      (if o.ticketPreference.Some? then ["ticket"] else [])
      + (if o.seatPreference.Some? then ["expkind"] else [])
      + (if o.walkingSpeed.Some? then ["ws"] else [])
      + FlagKeys
  {
    var on := MeanKeys(o.availableMeans);
    QueryTail(args);
    KeysAppend(PreferencePairs(o), FlagPairs(FlagKeys, on));
    FlagKeysOf(on);
    PreferenceKeys(o);
  }

  /** No flag key is a head key. */
  lemma MeanKeyNotInHead(m: AvailableMeans)
    ensures m.AsStr() !in HeadKeys
  {
  }

  /** The preferences sent are keyed ticket, expkind and ws only. */
  lemma MeanKeyNotPreference(o: TransitOptions, m: AvailableMeans)
    ensures m.AsStr() !in Keys(PreferencePairs(o))
  {
    var p := PreferencePairs(o);
    forall j | 0 <= j < |p|
      ensures p[j].0 != m.AsStr()
    {
      assert p[j].0 in {"ticket", "expkind", "ws"};
    }
  }

  /** A preference key is neither a head key nor a flag key. */
  lemma PreferenceKeyOutside(key: string)
    requires key == "ticket" || key == "expkind" || key == "ws"
    ensures key !in HeadKeys && key !in FlagKeys
  {
  }

  /** Among the preferences, the ticket mode is sent exactly when it is present. */
  lemma TicketLookup(o: TransitOptions)
    ensures Lookup(PreferencePairs(o), "ticket") ==
      if o.ticketPreference.Some? then Some(o.ticketPreference.value.AsStr()) else None
  {
    var p := PreferencePairs(o);
    if o.ticketPreference.Some? {
      LookupFirst(p, 0, "ticket");
    } else {
      PreferenceKeys(o);
    }
  }

  /** The same for the seat class. */
  lemma SeatLookup(o: TransitOptions)
    ensures Lookup(PreferencePairs(o), "expkind") ==
      if o.seatPreference.Some? then Some(NatToString(o.seatPreference.value.AsU32())) else None
  {
    var p := PreferencePairs(o);
    if o.seatPreference.Some? {
      LookupFirst(p, if o.ticketPreference.Some? then 1 else 0, "expkind");
    } else {
      PreferenceKeys(o);
    }
  }

  /** The same for the walking speed. */
  lemma WalkingLookup(o: TransitOptions)
    ensures Lookup(PreferencePairs(o), "ws") ==
      if o.walkingSpeed.Some? then Some(NatToString(o.walkingSpeed.value.AsU32())) else None
  {
    var p := PreferencePairs(o);
    if o.walkingSpeed.Some? {
      LookupFirst(p, |p| - 1, "ws");
    } else {
      PreferenceKeys(o);
    }
  }

  /** With options, a preference key is read from the preferences sent. */
  lemma PreferenceInQuery(args: TransitArgs, o: TransitOptions, key: string)
    requires ValidArgs(args) && args.options == Some(o)
    requires key == "ticket" || key == "expkind" || key == "ws"
    ensures Lookup(QueryOf(args), key) == Lookup(PreferencePairs(o), key)
  {
    var on := MeanKeys(o.availableMeans);
    PreferenceKeyOutside(key);
    QueryLookup(args, key);
    FlagKeysOf(on);
    LookupAppend(PreferencePairs(o), FlagPairs(FlagKeys, on), key);
  }

  /** With options, no preference is filled in from its default: each is sent exactly when it
      is present. */
  lemma ExplicitPreferences(args: TransitArgs, o: TransitOptions)
    requires ValidArgs(args) && args.options == Some(o)
    ensures Lookup(QueryOf(args), "ticket") ==
      if o.ticketPreference.Some? then Some(o.ticketPreference.value.AsStr()) else None
    ensures Lookup(QueryOf(args), "expkind") ==
      if o.seatPreference.Some? then Some(NatToString(o.seatPreference.value.AsU32())) else None
    ensures Lookup(QueryOf(args), "ws") ==
      if o.walkingSpeed.Some? then Some(NatToString(o.walkingSpeed.value.AsU32())) else None
  {
    PreferenceInQuery(args, o, "ticket");
    TicketLookup(o);
    PreferenceInQuery(args, o, "expkind");
    SeatLookup(o);
    PreferenceInQuery(args, o, "ws");
    WalkingLookup(o);
  }

  /** With options, the flag of each mean is "1" exactly when the mean is allowed. */
  lemma FlagIsAllowed(args: TransitArgs, o: TransitOptions, m: AvailableMeans)
    requires ValidArgs(args) && args.options == Some(o)
    ensures Lookup(QueryOf(args), m.AsStr()) == Some(if m in o.availableMeans then "1" else "0")
  {
    var key := m.AsStr();
    var on := MeanKeys(o.availableMeans);
    MeanKeyNotInHead(m);
    QueryLookup(args, key);
    MeanKeyNotPreference(o, m);
    LookupAppend(PreferencePairs(o), FlagPairs(FlagKeys, on), key);
    FlagLookup(on, m);
    assert key in on <==> m in o.availableMeans by {
      forall m' | m' in o.availableMeans && m'.AsStr() == key
        ensures m' == m
      {
        MeansKeys(m', m);
      }
    }
  }

  /** Without options, every mean is allowed. */
  lemma DefaultFlags(args: TransitArgs, m: AvailableMeans)
    requires ValidArgs(args) && args.options.None?
    ensures Lookup(QueryOf(args), m.AsStr()) == Some("1")
  {
    var on := AllFlagKeys;
    var defaults := PreferencePairs(DefaultTransitOptions());
    MeanKeyNotInHead(m);
    QueryLookup(args, m.AsStr());
    DefaultTail();
    MeanKeyNotPreference(DefaultTransitOptions(), m);
    LookupAppend(defaults, FlagPairs(FlagKeys, on), m.AsStr());
    FlagLookup(on, m);
  }

  /** Without options the tail is the default preferences, then every flag. */
  lemma DefaultTail()
    ensures TailPairs(None) == PreferencePairs(DefaultTransitOptions()) + FlagPairs(FlagKeys, AllFlagKeys)
  {
    var defaults: seq<Pair> := [("ticket", "normal"), ("expkind", "1"), ("ws", "3")];
    assert TailPairs(None) == defaults + FlagPairs(FlagKeys, AllFlagKeys);
    assert defaults == PreferencePairs(DefaultTransitOptions());
  }

  /** A page query holding a valid date-time's local fields, the minute as its two digits, is
      read as that date-time at +09:00 to the minute. */
  lemma SearchDateOfFields(obj: Value, dt: DateTime)
    requires ValidDateTime(dt)
    requires QueryI32(obj, "y") == Some(dt.date.year)
    requires QueryU32(obj, "m") == Some(dt.date.month) && QueryU32(obj, "d") == Some(dt.date.day)
    requires QueryU32(obj, "hh") == Some(dt.time.hour)
    requires QueryU32(obj, "m1") == Some(dt.time.minute / 10)
    requires QueryU32(obj, "m2") == Some(dt.time.minute % 10)
    ensures BuildSearchDateTime(obj) == Some(DateTime(dt.date, Time(dt.time.hour, dt.time.minute, 0), JstOffset))
  {
    assert QueryMinute(obj) == dt.time.minute;
  }

  /** A number sent under a key reads back from the echoed query as that number. */
  lemma EchoedNumber(q: seq<Pair>, key: string, n: nat)
    requires n <= U32Max && Lookup(q, key) == Some(NatToString(n))
    ensures QueryU32(EchoedQuery(q), key) == Some(n)
  {
    ParseU32OfNatToString(n);
  }

  /** The year sent reads back from the echoed query as that year. */
  lemma EchoedYear(q: seq<Pair>, year: int)
    requires I32Min <= year <= I32Max && Lookup(q, "y") == Some(IntToString(year))
    ensures QueryI32(EchoedQuery(q), "y") == Some(year)
  {
    ParseI32OfIntToString(year);
  }

  /** Any query whose y, m, d, hh, m1, m2 carry a valid date-time's local fields, with the
      minute split into its digits, is read back by the search page as that date-time at +09:00
      to the minute. */
  lemma EchoedDateFields(q: seq<Pair>, dt: DateTime)
    requires ValidDateTime(dt)
    requires Lookup(q, "y") == Some(IntToString(dt.date.year))
    requires Lookup(q, "m") == Some(NatToString(dt.date.month))
    requires Lookup(q, "d") == Some(NatToString(dt.date.day))
    requires Lookup(q, "hh") == Some(NatToString(dt.time.hour))
    requires Lookup(q, "m1") == Some(NatToString(dt.time.minute / 10))
    requires Lookup(q, "m2") == Some(NatToString(dt.time.minute % 10))
    ensures BuildSearchDateTime(EchoedQuery(q)) ==
      Some(DateTime(dt.date, Time(dt.time.hour, dt.time.minute, 0), JstOffset))
  {
    var obj := EchoedQuery(q);
    EchoedYear(q, dt.date.year);
    EchoedNumber(q, "m", dt.date.month);
    EchoedNumber(q, "d", dt.date.day);
    EchoedNumber(q, "hh", dt.time.hour);
    EchoedNumber(q, "m1", dt.time.minute / 10);
    EchoedNumber(q, "m2", dt.time.minute % 10);
    SearchDateOfFields(obj, dt);
  }

  /** Read back through the search page's query, the date fields the request sends give the
      request's local date and hour and minute at +09:00, seconds dropped. */
  lemma EncodedDateRoundTrip(args: TransitArgs)
    requires ValidArgs(args)
    ensures BuildSearchDateTime(EchoedQuery(QueryOf(args))) ==
      Some(DateTime(args.date.date, Time(args.date.time.hour, args.date.time.minute, 0), JstOffset))
  {
    HeadLookup(args, 2);
    HeadLookup(args, 3);
    HeadLookup(args, 4);
    HeadLookup(args, 5);
    HeadLookup(args, 6);
    HeadLookup(args, 7);
    EchoedDateFields(QueryOf(args), args.date);
  }

  /** For a request already at +09:00, the round trip gives back its date-time to the minute. */
  lemma JstDateRoundTrip(args: TransitArgs)
    requires ValidArgs(args) && args.date.offset == JstOffset
    ensures BuildSearchDateTime(EchoedQuery(QueryOf(args))) == Some(args.date.(time := args.date.time.(second := 0)))
  {
    EncodedDateRoundTrip(args);
  }
}
