/** The "admin genpremium" command
    (bot/command/impl/admin/admingenpremium.go): argument defaults, the
    key-generation loop, the key duration in int64 nanoseconds, and the
    direct message listing the keys. The UUID source, the key store and the
    direct-message calls are inputs. */
module AdminGenPremium {

  import opened Base
  import opened Registry

  // ---------------------------------------------------------------------
  // Key duration: time.Hour * 24 * time.Duration(length), in int64
  // ---------------------------------------------------------------------

  const NanosPerDay: int := 86_400_000_000_000
  const Int64Min: int := -0x8000_0000_0000_0000
  const Int64Max: int := 0x7fff_ffff_ffff_ffff

  /** Two's-complement wrap-around of a 64-bit signed product. */
  function WrapInt64(x: int): (r: int)
    ensures Int64Min <= r <= Int64Max
    ensures (r - x) % 0x1_0000_0000_0000_0000 == 0
    ensures Int64Min <= x <= Int64Max ==> r == x
  {
    var m := (x - Int64Min) % 0x1_0000_0000_0000_0000;
    m + Int64Min
  }

  /** time.Hour * 24 * time.Duration(length): the product taken modulo
      2^64 into the int64 range, exact while it fits. */
  function KeyDuration(length: int): (d: int)
    ensures Int64Min <= d <= Int64Max
    ensures (d - NanosPerDay * length) % 0x1_0000_0000_0000_0000 == 0
    ensures Int64Min <= NanosPerDay * length <= Int64Max ==> d == NanosPerDay * length
  {
    WrapInt64(NanosPerDay * length)
  }

  /** Up to 106751 days (either sign) the duration is exact. */
  lemma DurationExactInRange(length: int)
    requires -106751 <= length <= 106751
    ensures KeyDuration(length) == NanosPerDay * length
  {
  }

  /** One day more and the product overflows to a negative duration. */
  lemma DurationWrapsBeyondRange()
    ensures KeyDuration(106752) < 0
  {
  }

  // ---------------------------------------------------------------------
  // The key loop (lines 53-67)
  // ---------------------------------------------------------------------

  /** The keys kept after `n` iterations: iteration i keeps `newKey(i)`
      when the UUID was generated and `store(i)`, the write of that key,
      succeeded. */
  function Keys(n: nat, newKey: nat -> Result<string>, store: nat -> Result<()>): (keys: seq<string>)
    ensures |keys| <= n
  {
    if n == 0 then []
    else Keys(n - 1, newKey, store) + (if newKey(n - 1).Ok? && store(n - 1).Ok? then [newKey(n - 1).value] else [])
  }

  /** The kept keys are exactly the generated keys whose write succeeded. */
  lemma {:induction false} KeysAreTheStoredOnes(n: nat, newKey: nat -> Result<string>, store: nat -> Result<()>)
    ensures forall k :: k in Keys(n, newKey, store) <==>
      exists i :: 0 <= i < n && newKey(i) == Ok(k) && store(i).Ok?
  {
    if n > 0 {
      KeysAreTheStoredOnes(n - 1, newKey, store);
    }
  }

  /** Later iterations only append: keys stay in generation order. */
  lemma {:induction false} KeysOnlyGrow(m: nat, n: nat, newKey: nat -> Result<string>, store: nat -> Result<()>)
    requires m <= n
    ensures Keys(m, newKey, store) <= Keys(n, newKey, store)
  {
    if m < n {
      KeysOnlyGrow(m, n - 1, newKey, store);
    }
  }

  /** The counted loop; it runs not at all when `amount` is not positive. */
  method GenerateKeys(amount: int, newKey: nat -> Result<string>, store: nat -> Result<()>)
    returns (keys: seq<string>)
    ensures keys == Keys(if amount <= 0 then 0 else amount, newKey, store)
  {
    keys := [];
    var i := 0;
    while i < amount
      invariant 0 <= i && (amount <= 0 ==> i == 0) && (amount > 0 ==> i <= amount)
      invariant keys == Keys(i, newKey, store)
    {
      var key := newKey(i);
      if key.Err? {
        i := i + 1;
        continue;
      }
      var created := store(i);
      if created.Ok? {
        keys := keys + [key.value];
      }
      i := i + 1;
    }
  }

  // ---------------------------------------------------------------------
  // The direct message (lines 76-81)
  // ---------------------------------------------------------------------

  /** Each key followed by a newline, in order. */
  function Lines(keys: seq<string>): string {
    if keys == [] then "" else Lines(keys[..|keys| - 1]) + keys[|keys| - 1] + "\n"
  }

  lemma {:induction false} JoinSnoc(parts: seq<string>, p: string, sep: string)
    requires |parts| >= 1
    ensures Join(parts + [p], sep) == Join(parts, sep) + sep + p
  {
    assert (parts + [p])[1..] == parts[1..] + [p];
    if |parts| > 1 {
      JoinSnoc(parts[1..], p, sep);
    }
  }

  lemma {:induction false} LinesAreJoined(keys: seq<string>)
    requires keys != []
    ensures Lines(keys) == Join(keys, "\n") + "\n"
  {
    var init := keys[..|keys| - 1];
    if init != [] {
      LinesAreJoined(init);
      JoinSnoc(init, keys[|keys| - 1], "\n");
      assert init + [keys[|keys| - 1]] == keys;
    }
  }

  /** The message body: the keys one per line inside a code fence, and an
      empty fence pair when there are none. */
  method BuildContent(keys: seq<string>) returns (content: string)
    ensures content == if keys == [] then "``````" else "```\n" + Join(keys, "\n") + "```"
  {
    content := "```\n";
    for i := 0 to |keys|
      invariant content == "```\n" + Lines(keys[..i])
    {
      assert keys[..i + 1][..i] == keys[..i];
      content := content + keys[i] + "\n";
    }
    assert keys[..|keys|] == keys;
    if keys != [] {
      LinesAreJoined(keys);
      ghost var s := "```\n" + Join(keys, "\n");
      assert content == s + "\n";
      assert content[|content| - 1..] == "\n";
      content := TrimSuffix(content, "\n");
      assert content == s;
    } else {
      assert content[|content| - 1..] == "\n";
      content := TrimSuffix(content, "\n");
      assert content == "```";
    }
    content := content + "```";
  }

  // ---------------------------------------------------------------------
  // Execute (lines 42-90)
  // ---------------------------------------------------------------------

  datatype Outcome = Outcome(
    tier: PremiumTier,
    duration: int,
    keys: seq<string>,
    sent: Option<string>,
    errorReply: Option<string>,
    rejected: bool,
    accepted: bool)

  /** `dmChannel` and `send` are the results of opening the direct message
      and of sending it. */
  method Execute(length: int, amountRaw: Option<int>, whitelabel: Option<bool>,
                 newKey: nat -> Result<string>, store: nat -> Result<()>,
                 dmChannel: Result<nat>, send: Result<()>) returns (o: Outcome)
    ensures o.tier == if whitelabel == Some(true) then Whitelabel else Premium
    ensures o.duration == KeyDuration(length)
    ensures var amount := if amountRaw.Some? then amountRaw.value else 1;
      o.keys == Keys(if amount <= 0 then 0 else amount, newKey, store)
    ensures dmChannel.Err? ==> o.sent.None? && o.errorReply == Some(dmChannel.error)
    ensures dmChannel.Ok? ==> o.sent == Some(if o.keys == [] then "``````" else "```\n" + Join(o.keys, "\n") + "```")
    ensures dmChannel.Ok? && send.Err? ==> o.errorReply == Some(send.error)
    ensures o.accepted <==> dmChannel.Ok? && send.Ok?
    ensures o.rejected <==> !o.accepted
    ensures o.accepted ==> o.errorReply.None?
  {
    var amount := 1;
    if amountRaw.Some? {
      amount := amountRaw.value;
    }
    var tier := Premium;
    if whitelabel.Some? && whitelabel.value {
      tier := Whitelabel;
    }
    var duration := KeyDuration(length);
    var keys := GenerateKeys(amount, newKey, store);
    if dmChannel.Err? {
      return Outcome(tier, duration, keys, None, Some(dmChannel.error), true, false);
    }
    var content := BuildContent(keys);
    if send.Err? {
      return Outcome(tier, duration, keys, Some(content), Some(send.error), true, false);
    }
    return Outcome(tier, duration, keys, Some(content), None, false, true);
  }
}
