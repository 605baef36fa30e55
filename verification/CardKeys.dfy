/** The keys of one tenant's cards, tombstones included, and the key a card is given when its caller names none. */
module CardKeys {
  import opened Prelude
  import opened Text

  const KEY_PREFIX := "FCT-"

  function Suffix(key: string): string {
    if KEY_PREFIX <= key then key[|KEY_PREFIX|..] else ""
  }

  /** The scan takes the number of every key that is the prefix and a suffix of digits, as `isdigit` has it. */
  predicate Numbered(t: Chars, key: string) {
    IsDigits(t, Suffix(key))
  }

  /** ... and raises on one whose suffix holds a digit `int` refuses. */
  predicate Unreadable(t: Chars, key: string) {
    Numbered(t, key) && exists i :: 0 <= i < |Suffix(key)| && t.decimal(Suffix(key)[i]).None?
  }

  /** The number of a key, zero if it has none. */
  function NumberOf(t: Chars, key: string): nat {
    if Numbered(t, key) && IntOf(t, Suffix(key)).Some? then IntOf(t, Suffix(key)).value else 0
  }

  /** What the scan takes from one key: its number, zero for a key of another shape, or nothing where `int` raises. */
  function Reading(t: Chars, key: string): Option<nat> {
    if IsDigits(t, Suffix(key)) then IntOf(t, Suffix(key)) else Some(0)
  }

  lemma ReadingIs(t: Chars, key: string)
    ensures Reading(t, key) == if Unreadable(t, key) then None else Some(NumberOf(t, key))
  {
  }

  /** The highest number of the keys, or nothing where one of them cannot be read. */
  function Scan(t: Chars, keys: seq<string>): Option<nat> {
    if keys == [] then Some(0)
    else
      var before, last := Scan(t, keys[..|keys| - 1]), Reading(t, keys[|keys| - 1]);
      if before.None? || last.None? then None else Some(if last.value > before.value then last.value else before.value)
  }

  function KeyFor(n: nat): string {
    KEY_PREFIX + Decimal(n)
  }

  lemma KeyForIsNumbered(t: Chars, n: nat)
    requires Unicode(t)
    ensures NumberOf(t, KeyFor(n)) == n && Numbered(t, KeyFor(n)) && !Unreadable(t, KeyFor(n)) && KeyFor(n) != ""
  {
    var key := KeyFor(n);
    assert Suffix(key) == Decimal(n);
    ParseOfDecimal(n);
    AsciiInt(t, Decimal(n));
  }

  /** The highest number among the keys. */
  function Highest(t: Chars, keys: seq<string>): (n: nat)
    ensures forall k :: k in keys ==> NumberOf(t, k) <= n
    ensures n == 0 || exists k :: k in keys && NumberOf(t, k) == n
  {
    if keys == [] then 0
    else
      var last, before := |keys| - 1, Highest(t, keys[..|keys| - 1]);
      assert keys == keys[..last] + [keys[last]];
      if NumberOf(t, keys[last]) > before then NumberOf(t, keys[last]) else before
  }

  lemma {:induction false} ScanIs(t: Chars, keys: seq<string>)
    ensures Scan(t, keys).Some? <==> Readable(t, keys)
    ensures Scan(t, keys).Some? ==> Scan(t, keys).value == Highest(t, keys)
  {
    if keys != [] {
      var last := |keys| - 1;
      ScanIs(t, keys[..last]);
      ReadingIs(t, keys[last]);
      assert keys == keys[..last] + [keys[last]];
      AddedReadable(t, keys[..last], keys[last]);
    }
  }

  lemma {:induction false} ScanStopped(t: Chars, keys: seq<string>, n: nat)
    requires n <= |keys| && Scan(t, keys[..n]).None?
    ensures Scan(t, keys).None?
    decreases |keys|
  {
    if n < |keys| {
      assert keys[..|keys| - 1][..n] == keys[..n];
      ScanStopped(t, keys[..|keys| - 1], n);
    } else {
      assert keys[..n] == keys;
    }
  }

  function NextKey(t: Chars, keys: seq<string>): Option<string> {
    match Scan(t, keys) case None => None case Some(highest) => Some(KeyFor(highest + 1))
  }

  /** The scan over every card of the tenant, deleted ones too. */
  method NextCardKey(t: Chars, keys: seq<string>) returns (key: Option<string>)
    ensures key == NextKey(t, keys)
  {
    var highest := 0;
    for i := 0 to |keys|
      invariant Scan(t, keys[..i]) == Some(highest)
    {
      assert keys[..i + 1][..i] == keys[..i];
      var number := Reading(t, keys[i]);
      if number.None? {
        ScanStopped(t, keys, i + 1);
        return None;
      }
      if number.value > highest {
        highest := number.value;
      }
    }
    assert keys[..|keys|] == keys;
    key := Some(KeyFor(highest + 1));
  }

  /** A key is found exactly when every key present can be read; it is then on no card, and numbered above them all. */
  lemma NextKeyIsNew(t: Chars, keys: seq<string>)
    requires Unicode(t)
    ensures NextKey(t, keys).Some? <==> Readable(t, keys)
    ensures NextKey(t, keys).Some? ==>
      && NextKey(t, keys).value !in keys && "FCT-" <= NextKey(t, keys).value && !Unreadable(t, NextKey(t, keys).value)
      && (forall k :: k in keys ==> NumberOf(t, k) < NumberOf(t, NextKey(t, keys).value))
      && (NumberOf(t, NextKey(t, keys).value) == 1 || exists k :: k in keys && NumberOf(t, k) + 1 == NumberOf(t, NextKey(t, keys).value))
  {
    ScanIs(t, keys);
    KeyForIsNumbered(t, Highest(t, keys) + 1);
  }

  /** What a create reports: the card's key, a key that is taken, or the scan's own error. */
  datatype Outcome = Created(key: string) | Taken | Failed

  predicate Asks(wanted: Option<string>) {
    wanted.None? || wanted.value == ""
  }

  /** One create: the caller's key, refused when it is taken, or an assigned one. An empty key counts as none. */
  function Create(t: Chars, keys: seq<string>, wanted: Option<string>): (seq<string>, Outcome) {
    var key := if Asks(wanted) then NextKey(t, keys) else wanted;
    if key.None? then (keys, Failed)
    else if key.value in keys then (keys, Taken)
    else (keys + [key.value], Created(key.value))
  }

  function Run(t: Chars, keys: seq<string>, creates: seq<Option<string>>): seq<string>
    decreases |creates|
  {
    if creates == [] then keys else Run(t, Create(t, keys, creates[0]).0, creates[1..])
  }

  predicate Distinct(keys: seq<string>) {
    forall i, j :: 0 <= i < j < |keys| ==> keys[i] != keys[j]
  }

  /** Some caller named a key the scan cannot read. */
  ghost predicate NamesUnreadable(t: Chars, creates: seq<Option<string>>) {
    exists i :: 0 <= i < |creates| && creates[i].Some? && Unreadable(t, creates[i].value)
  }

  ghost predicate Readable(t: Chars, keys: seq<string>) {
    forall k :: k in keys ==> !Unreadable(t, k)
  }

  lemma AddedReadable(t: Chars, keys: seq<string>, key: string)
    ensures Readable(t, keys + [key]) <==> Readable(t, keys) && !Unreadable(t, key)
  {
    assert forall k :: k in keys + [key] <==> k in keys || k == key;
  }

  lemma CreateKeeps(t: Chars, keys: seq<string>, wanted: Option<string>)
    requires Unicode(t) && Distinct(keys)
    ensures var after := Create(t, keys, wanted).0;
      Distinct(after) && keys <= after && (Readable(t, after) <==> Readable(t, keys) && !(wanted.Some? && Unreadable(t, wanted.value)))
  {
    if Asks(wanted) {
      NextKeyIsNew(t, keys);
      assert wanted.Some? ==> Suffix(wanted.value) == "";
      if NextKey(t, keys).Some? {
        AddedReadable(t, keys, NextKey(t, keys).value);
      }
    } else {
      AddedReadable(t, keys, wanted.value);
    }
  }

  lemma {:induction false} RunKeeps(t: Chars, keys: seq<string>, creates: seq<Option<string>>)
    requires Unicode(t) && Distinct(keys)
    ensures Distinct(Run(t, keys, creates)) && keys <= Run(t, keys, creates)
    ensures Readable(t, Run(t, keys, creates)) <==> Readable(t, keys) && !NamesUnreadable(t, creates)
    decreases |creates|
  {
    if creates != [] {
      var after, rest := Create(t, keys, creates[0]).0, creates[1..];
      CreateKeeps(t, keys, creates[0]);
      RunKeeps(t, after, rest);
      assert forall i :: 0 <= i < |rest| ==> rest[i] == creates[i + 1];
      assert NamesUnreadable(t, creates) <==> NamesUnreadable(t, rest) || (creates[0].Some? && Unreadable(t, creates[0].value)) by {
        if i :| 0 < i < |creates| && creates[i].Some? && Unreadable(t, creates[i].value) {
          assert rest[i - 1] == creates[i];
        }
      }
    }
  }

  /** After any run of creates keys never repeat, and a key is assigned if and only if no caller so far named one that the scan cannot read; an assigned key is held by no card, and its number is above every number assigned or chosen so far. */
  lemma AssignedKeysAreNew(t: Chars, creates: seq<Option<string>>)
    requires Unicode(t)
    ensures var keys := Run(t, [], creates);
      var (after, outcome) := Create(t, keys, None);
      && Distinct(keys)
      && (outcome.Created? <==> !NamesUnreadable(t, creates))
      && (outcome.Failed? <==> NamesUnreadable(t, creates))
      && (outcome.Created? ==>
            && outcome.key !in keys && after == keys + [outcome.key]
            && forall k :: k in keys ==> NumberOf(t, k) < NumberOf(t, outcome.key))
  {
    RunKeeps(t, [], creates);
    NextKeyIsNew(t, Run(t, [], creates));
  }

  /** A create whose caller leaves the key empty asks for one, as one that names none does. */
  lemma EmptyKeyAsksForOne(t: Chars, keys: seq<string>)
    ensures Create(t, keys, Some("")) == Create(t, keys, None)
  {
  }

  /** One card named with a superscript is enough, and for good: whatever is created afterwards, no key is ever assigned again. */
  lemma OneKeyStopsAssignment(t: Chars, before: seq<Option<string>>, after: seq<Option<string>>)
    requires Unicode(t)
    ensures var stop := Some(KEY_PREFIX + [SUPERSCRIPT_TWO]);
      Create(t, Run(t, [], before + [stop] + after), None).1 == Failed
  {
    var stop := KEY_PREFIX + [SUPERSCRIPT_TWO];
    var creates := before + [Some(stop)] + after;
    assert Suffix(stop) == [SUPERSCRIPT_TWO];
    assert Unreadable(t, stop) by {
      assert t.decimal(Suffix(stop)[0]).None?;
    }
    assert creates[|before|] == Some(stop);
    AssignedKeysAreNew(t, creates);
  }

  /** Two creates that read the same keys are assigned the same one; the unique index lets one in, and the other is new again when it asks again. */
  lemma RacingCreateRetries(t: Chars, keys: seq<string>)
    requires Unicode(t) && Create(t, keys, None).1.Created?
    ensures var (after, first) := Create(t, keys, None);
      && Create(t, after, Some(first.key)) == (after, Taken)
      && Create(t, after, None).1.Created? && Create(t, after, None).1.key != first.key
  {
    NextKeyIsNew(t, keys);
    var (after, first) := Create(t, keys, None);
    AddedReadable(t, keys, first.key);
    NextKeyIsNew(t, after);
    assert first.key in after;
  }
}
