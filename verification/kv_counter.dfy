/**
 The per-option counter variant (functions/api/vote.ts and results.ts): one
 key-value entry `vote::<option>` per option, holding its count.
 */
module KvCounter {
  import opened Basics

  /** The key-value namespace; a missing key has never been voted for. */
  type Store = map<string, nat>

  const Prefix: string := "vote::"

  /** The key an option's counter lives under. */
  function CounterKey(option: string): (key: string)
    ensures |key| == |Prefix| + |option|
    ensures key[..|Prefix|] == Prefix && key[|Prefix|..] == option
  {
    Prefix + option
  }

  /** Distinct options never share a counter. */
  lemma CounterKeyInjective(a: string, b: string)
    requires CounterKey(a) == CounterKey(b)
    ensures a == b
  {
    assert a == CounterKey(a)[|Prefix|..];
  }

  /** The counter under `key`; an absent key reads as 0. */
  function Read(store: Store, key: string): (n: nat)
    ensures key in store ==> n == store[key]
    ensures key !in store ==> n == 0
  {
    if key in store then store[key] else 0
  }

  /** The reply of a successful vote: the option and its new count. */
  datatype Counted = Counted(option: string, count: nat)

  /** A rejected vote (status 400). */
  datatype Invalid = Invalid

  /**
   `onRequestPost`: a missing (`None`) or empty option is rejected with no
   write; otherwise the option's counter is set to its previous value plus
   one, and that new value is returned. Only that key is written.
   */
  function PostVote(store: Store, option: Option<string>): (r: Result<(Store, Counted), Invalid>)
    ensures r.Err? <==> option.GetOr("") == ""
    ensures r.Ok? ==> var (store', reply) := r.value;
      && reply.option == option.value
      && reply.count == Read(store, CounterKey(option.value)) + 1
      && CounterKey(option.value) in store' && store'[CounterKey(option.value)] == reply.count
      && store'.Keys == store.Keys + {CounterKey(option.value)}
      && forall k :: k in store && k != CounterKey(option.value) ==> store'[k] == store[k]
  {
    var text := option.GetOr("");
    if text == "" then Err(Invalid)
    else
      var key := CounterKey(text);
      var next := Read(store, key) + 1;
      Ok((store[key := next], Counted(text, next)))
  }

  /** The fixed results body: exactly the fields `A` and `B`. */
  datatype Tally = Tally(a: nat, b: nat)

  /** `onRequestGet`: the counters of options "A" and "B", absent read as 0; it writes nothing. */
  function Results(store: Store): (t: Tally)
    ensures t.a == (if "vote::A" in store then store["vote::A"] else 0)
    ensures t.b == (if "vote::B" in store then store["vote::B"] else 0)
    ensures t.a == Read(store, CounterKey("A")) && t.b == Read(store, CounterKey("B"))
  {
    assert CounterKey("A") == "vote::A" && CounterKey("B") == "vote::B";
    Tally(Read(store, "vote::A"), Read(store, "vote::B"))
  }

  /** A vote for "A" shows up in the results as one more `A` and the same `B`; likewise for "B". */
  lemma VoteThenResults(store: Store, option: string)
    requires option == "A" || option == "B"
    ensures var r := PostVote(store, Some(option));
      && r.Ok?
      && Results(r.value.0).a == Results(store).a + (if option == "A" then 1 else 0)
      && Results(r.value.0).b == Results(store).b + (if option == "B" then 1 else 0)
  {
    assert CounterKey("A") != CounterKey("B") by {
      assert CounterKey("A")[6] != CounterKey("B")[6];
    }
  }

  /** A vote for any other option leaves the results unchanged. */
  lemma OtherVoteInvisible(store: Store, option: string)
    requires option != "" && option != "A" && option != "B"
    ensures var r := PostVote(store, Some(option));
      r.Ok? && Results(r.value.0) == Results(store)
  {
    if CounterKey(option) == CounterKey("A") {
      CounterKeyInjective(option, "A");
    }
    if CounterKey(option) == CounterKey("B") {
      CounterKeyInjective(option, "B");
    }
  }

  /**
   The lost update of the unsynchronised get/put: two votes for the same
   option that both read the same store each report success, yet the second
   put leaves the counter only one above where it started.
   */
  lemma LostIncrement(store: Store, option: string)
    requires option != ""
    ensures var first := PostVote(store, Some(option));
      var second := PostVote(store, Some(option));
      && first.Ok? && second.Ok?
      && second.value.0[CounterKey(option)] == Read(store, CounterKey(option)) + 1
  {
  }
}
