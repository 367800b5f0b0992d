/** Batched multi-object deletion: one honest outcome per key, whatever the responses say. */
module DeleteObjects {
  import opened Basics
  import opened Keys

  const MAX_KEYS: nat := 1_000
  const MAX_INPUT: nat := 100_000

  datatype Reason = RequestFailed | InvalidResponse

  datatype Label = Confirmed | Rejected | Unconfirmed(reason: Reason) | Unsupported | NotAttempted

  /** One member of a response: the key it speaks of, and whether the key was deleted. */
  datatype Member = Member(key: Key, ok: bool)

  datatype Response = Members(members: seq<Member>) | Refusal | Failed(reason: Reason)

  datatype InputError = TooManyKeys | Inadmissible(index: nat) | Duplicate(first: nat, second: nat)

  // ---- Admission ------------------------------------------------------------------

  ghost predicate Distinct(keys: seq<Key>) { forall i, j :: 0 <= i < j < |keys| ==> keys[i] != keys[j] }

  /** The first fault by input index, or none. */
  ghost predicate AdmissionIs(namespace: Key, keys: seq<Key>, e: Option<InputError>) {
    match e
    case None => |keys| <= MAX_INPUT && Distinct(keys) && forall i :: 0 <= i < |keys| ==> Admissible(namespace, keys[i])
    case Some(TooManyKeys) => |keys| > MAX_INPUT
    case Some(Inadmissible(i)) =>
      && |keys| <= MAX_INPUT && i < |keys| && Distinct(keys[..i]) && !Admissible(namespace, keys[i])
      && forall j :: 0 <= j < i ==> Admissible(namespace, keys[j])
    case Some(Duplicate(first, second)) =>
      && |keys| <= MAX_INPUT && first < second < |keys| && keys[first] == keys[second] && Distinct(keys[..second])
      && forall j :: 0 <= j <= second ==> Admissible(namespace, keys[j])
  }

  method Admit(namespace: Key, keys: seq<Key>) returns (e: Option<InputError>)
    ensures AdmissionIs(namespace, keys, e)
  {
    hide Admissible;
    if |keys| > MAX_INPUT { return Some(TooManyKeys); }
    var seen: map<Key, nat> := map[];
    for i := 0 to |keys|
      invariant forall j :: 0 <= j < i ==> Admissible(namespace, keys[j])
      invariant forall k :: k in seen ==> seen[k] < i && keys[seen[k]] == k
      invariant forall j :: 0 <= j < i ==> keys[j] in seen && seen[keys[j]] == j
      invariant Distinct(keys[..i])
    {
      if !Admissible(namespace, keys[i]) { return Some(Inadmissible(i)); }
      if keys[i] in seen { return Some(Duplicate(seen[keys[i]], i)); }
      seen := seen[keys[i] := i];
    }
    assert keys[..|keys|] == keys;
    e := None;
  }

  // ---- One chunk ---------------------------------------------------------------------

  ghost predicate Mentions(members: seq<Member>, key: Key, ok: bool) {
    exists j :: 0 <= j < |members| && members[j] == Member(key, ok)
  }

  /** Exactly one member for each requested key. */
  ghost predicate Bijective(chunk: seq<Key>, members: seq<Member>) {
    && |members| == |chunk|
    && (forall j :: 0 <= j < |members| ==> members[j].key in chunk)
    && (forall i, j :: 0 <= i < j < |members| ==> members[i].key != members[j].key)
    && (forall l :: 0 <= l < |chunk| ==> Mentions(members, chunk[l], true) || Mentions(members, chunk[l], false))
  }

  method IndexOf(chunk: seq<Key>) returns (index: map<Key, nat>)
    requires Distinct(chunk)
    ensures forall l :: 0 <= l < |chunk| ==> chunk[l] in index && index[chunk[l]] == l
    ensures forall k :: k in index ==> index[k] < |chunk| && chunk[index[k]] == k
  {
    index := map[];
    for l := 0 to |chunk|
      invariant forall i :: 0 <= i < l ==> chunk[i] in index && index[chunk[i]] == i
      invariant forall k :: k in index ==> index[k] < l && chunk[index[k]] == k
    {
      index := index[chunk[l] := l];
    }
  }

  /** Members `0..j` copied into the slots `at`, each slot once; the other slots are untouched. */
  ghost predicate Copied(labels: seq<Label>, chunk: seq<Key>, members: seq<Member>, at: seq<nat>,
                         filled: map<nat, nat>) {
    && |labels| == |chunk| && |at| <= |members|
    && (forall i :: 0 <= i < |at| ==> at[i] in filled && filled[at[i]] == i)
    && (forall l :: l in filled ==>
          && l < |chunk| && filled[l] < |at| && at[filled[l]] == l && members[filled[l]].key == chunk[l]
          && labels[l] == if members[filled[l]].ok then Confirmed else Rejected)
    && (forall l :: 0 <= l < |chunk| && l !in filled ==> labels[l] == Confirmed)
  }

  lemma NothingCopied(labels: seq<Label>, chunk: seq<Key>, members: seq<Member>)
    requires |labels| == |chunk| && forall l :: 0 <= l < |chunk| ==> labels[l] == Confirmed
    ensures Copied(labels, chunk, members, [], map[])
  {
  }

  lemma CopyStep(labels: seq<Label>, chunk: seq<Key>, members: seq<Member>, at: seq<nat>, filled: map<nat, nat>, l: nat)
    requires Copied(labels, chunk, members, at, filled) && |at| < |members|
    requires l < |chunk| && l !in filled && members[|at|].key == chunk[l]
    ensures Copied(labels[l := if members[|at|].ok then Confirmed else Rejected],
                   chunk, members, at + [l], filled[l := |at|])
  {
  }

  /** Copying went through: the response is a bijection exactly when it also fills every slot. */
  lemma AllCopied(labels: seq<Label>, chunk: seq<Key>, members: seq<Member>, at: seq<nat>, filled: map<nat, nat>)
    requires Distinct(chunk) && Copied(labels, chunk, members, at, filled) && |at| == |members|
    ensures Bijective(chunk, members) <==> |members| == |chunk| && forall l :: 0 <= l < |chunk| ==> l in filled
  {
    forall j | 0 <= j < |members| ensures members[j].key in chunk && members[j].key == chunk[at[j]] {
      assert at[j] in filled;
    }
    forall i, j | 0 <= i < j < |members| ensures members[i].key != members[j].key {
      assert at[i] in filled && at[j] in filled && filled[at[i]] == i && filled[at[j]] == j;
    }
    forall l | 0 <= l < |chunk|
      ensures l in filled <==> Mentions(members, chunk[l], true) || Mentions(members, chunk[l], false)
    {
      SlotFilled(labels, chunk, members, at, filled, l);
    }
  }

  lemma SlotFilled(labels: seq<Label>, chunk: seq<Key>, members: seq<Member>, at: seq<nat>,
                   filled: map<nat, nat>, l: nat)
    requires Distinct(chunk) && Copied(labels, chunk, members, at, filled) && |at| == |members| && l < |chunk|
    ensures l in filled <==> Mentions(members, chunk[l], true) || Mentions(members, chunk[l], false)
  {
    if l in filled {
      assert members[filled[l]] == Member(chunk[l], members[filled[l]].ok);
    }
    forall j | 0 <= j < |members| && members[j].key == chunk[l] ensures l in filled {
      assert at[j] in filled && chunk[at[j]] == chunk[l];
    }
  }

  /** A bijection says exactly one thing of each key. */
  lemma SaidOnce(chunk: seq<Key>, members: seq<Member>)
    requires Bijective(chunk, members)
    ensures forall l :: 0 <= l < |chunk| ==>
      (Mentions(members, chunk[l], true) <==> !Mentions(members, chunk[l], false))
  {
  }

  /** What is copied so far is exactly what the members so far say. */
  lemma CopiedExact(labels: seq<Label>, chunk: seq<Key>, members: seq<Member>, at: seq<nat>, filled: map<nat, nat>)
    requires Distinct(chunk) && Copied(labels, chunk, members, at, filled)
    ensures forall l :: 0 <= l < |chunk| ==>
      labels[l] == if Mentions(members[..|at|], chunk[l], false) then Rejected else Confirmed
  {
    var taken := members[..|at|];
    forall l | 0 <= l < |chunk|
      ensures labels[l] == if Mentions(taken, chunk[l], false) then Rejected else Confirmed
    {
      if l in filled && !members[filled[l]].ok {
        assert taken[filled[l]] == Member(chunk[l], false);
      }
      if Mentions(taken, chunk[l], false) {
        var j :| 0 <= j < |taken| && taken[j] == Member(chunk[l], false);
        assert at[j] in filled && chunk[at[j]] == chunk[l];
      }
    }
  }

  /** Member `j` speaks of a key of the chunk that no earlier member spoke of. */
  ghost predicate Fits(chunk: seq<Key>, members: seq<Member>, j: nat)
    requires j < |members|
  {
    members[j].key in chunk && forall i :: 0 <= i < j ==> members[i].key != members[j].key
  }

  /** The first member from `j` on that does not fit. */
  ghost function FirstMisfit(chunk: seq<Key>, members: seq<Member>, j: nat): nat
    requires j <= |members|
    ensures FirstMisfit(chunk, members, j) <= |members|
    decreases |members| - j
  {
    if j < |members| && Fits(chunk, members, j) then FirstMisfit(chunk, members, j + 1) else j
  }

  /** The members before the first that does not fit. */
  ghost function Taken(chunk: seq<Key>, members: seq<Member>): seq<Member> {
    members[..FirstMisfit(chunk, members, 0)]
  }

  lemma FitsIff(labels: seq<Label>, chunk: seq<Key>, members: seq<Member>, at: seq<nat>, filled: map<nat, nat>,
                j: nat, index: map<Key, nat>)
    requires Distinct(chunk) && Copied(labels, chunk, members, at, filled) && |at| == j < |members|
    requires forall l :: 0 <= l < |chunk| ==> chunk[l] in index && index[chunk[l]] == l
    requires forall k :: k in index ==> index[k] < |chunk| && chunk[index[k]] == k
    ensures Fits(chunk, members, j) <==> members[j].key in index && index[members[j].key] !in filled
    ensures Bijective(chunk, members) ==> Fits(chunk, members, j)
  {
    var key := members[j].key;
    if key in index && index[key] in filled {
      assert members[filled[index[key]]].key == key;
    }
    forall i | 0 <= i < j && members[i].key == key ensures key in index && index[key] in filled {
      assert at[i] in filled && chunk[at[i]] == key;
    }
  }

  /**
   Copy the members into the chunk's outcomes, in input order, up to the first that does not fit: each
   label is then exactly what the members taken say of its key.
  */
  method Reconcile(outcomes: array<Label>, start: nat, chunk: seq<Key>, members: seq<Member>) returns (bijective: bool)
    requires start + |chunk| <= outcomes.Length && Distinct(chunk)
    requires forall i :: start <= i < start + |chunk| ==> outcomes[i] == Confirmed
    modifies outcomes
    ensures forall i :: 0 <= i < outcomes.Length && !(start <= i < start + |chunk|) ==> outcomes[i] == old(outcomes[i])
    ensures bijective <==> Bijective(chunk, members)
    ensures var labels := outcomes[start..start + |chunk|];
      && (forall l :: 0 <= l < |chunk| ==>
            labels[l] == if Mentions(Taken(chunk, members), chunk[l], false) then Rejected else Confirmed)
      && (bijective ==> forall l :: 0 <= l < |chunk| ==>
            labels[l] == if Mentions(members, chunk[l], true) then Confirmed else Rejected)
  {
    hide Bijective, Mentions, Fits, Copied;
    var index := IndexOf(chunk);
    NothingCopied(outcomes[start..start + |chunk|], chunk, members);
    var filled: map<nat, nat> := map[];
    ghost var at: seq<nat> := [];
    for j := 0 to |members|
      invariant forall i :: 0 <= i < outcomes.Length && !(start <= i < start + |chunk|) ==>
        outcomes[i] == old(outcomes[i])
      invariant |at| == j && Copied(outcomes[start..start + |chunk|], chunk, members, at, filled)
      invariant FirstMisfit(chunk, members, 0) == FirstMisfit(chunk, members, j)
    {
      FitsIff(outcomes[start..start + |chunk|], chunk, members, at, filled, j, index);
      if members[j].key !in index || index[members[j].key] in filled {
        CopiedExact(outcomes[start..start + |chunk|], chunk, members, at, filled);
        return false;
      }
      var l := index[members[j].key];
      ghost var before := outcomes[start..start + |chunk|];
      outcomes[start + l] := if members[j].ok then Confirmed else Rejected;
      assert outcomes[start..start + |chunk|] == before[l := outcomes[start + l]];
      CopyStep(before, chunk, members, at, filled, l);
      filled := filled[l := j];
      at := at + [l];
    }
    AllCopied(outcomes[start..start + |chunk|], chunk, members, at, filled);
    CopiedExact(outcomes[start..start + |chunk|], chunk, members, at, filled);
    bijective := |members| == |chunk| && forall l :: 0 <= l < |chunk| ==> l in filled;
    if bijective { SaidOnce(chunk, members); }
    assert members[..|members|] == members;
  }

  // ---- The whole call ---------------------------------------------------------------------

  /** Where chunk `c` starts, and which chunk holds key `i`. */
  function Start(c: nat): nat { 1_000 * c }

  function ChunkOf(i: nat): nat { i / 1_000 }

  lemma ChunkBounds(i: nat, c: nat)
    ensures ChunkOf(i) == c <==> Start(c) <= i < Start(c + 1)
    ensures ChunkOf(i) < c <==> i < Start(c)
    ensures Start(c + 1) == Start(c) + MAX_KEYS && Start(0) == 0
  {
  }

  function ChunkAt(keys: seq<Key>, c: nat): seq<Key>
    requires Start(c) <= |keys|
  {
    keys[Start(c)..if Start(c + 1) < |keys| then Start(c + 1) else |keys|]
  }

  ghost predicate Reconciled(chunk: seq<Key>, r: Response) { r.Members? && Bijective(chunk, r.members) }

  /** What a trustworthy response says of a key. */
  ghost predicate Speaks(r: Response, key: Key, ok: bool) { r.Members? && Mentions(r.members, key, ok) }

  /** The label of key `i`, when the chunks before `stop` were reconciled and chunk `stop`, if any, was not. */
  ghost predicate LabelOk(keys: seq<Key>, responses: nat -> Response, stop: nat, i: nat, mark: Label)
    requires i < |keys|
  {
    var c := ChunkOf(i);
    if c < stop then LabelBefore(keys, responses, i, mark)
    else
      match responses(stop)
      case Refusal => mark == Unsupported
      case Failed(reason) => mark == if c > stop then NotAttempted else Unconfirmed(reason)
      case Members(members) => mark == if c > stop then NotAttempted else LabelStopped(keys, c, members, i)
  }

  /** In a chunk whose response is no bijection, a rejection copied before that was noticed stays. */
  ghost function LabelStopped(keys: seq<Key>, c: nat, members: seq<Member>, i: nat): Label
    requires i < |keys|
  {
    if Start(c) <= |keys| && Mentions(Taken(ChunkAt(keys, c), members), keys[i], false) then Rejected
    else Unconfirmed(InvalidResponse)
  }

  /** Reconciled chunks, then at most one stopped chunk, then a uniform tail. */
  ghost predicate Accounted(keys: seq<Key>, responses: nat -> Response, labels: seq<Label>, sent: nat, stop: nat) {
    && |labels| == |keys|
    && (forall i :: 0 <= i < |keys| ==> LabelOk(keys, responses, stop, i, labels[i]))
    && (forall c :: 0 <= c < stop && Start(c) < |keys| ==> Reconciled(ChunkAt(keys, c), responses(c)))
    && (Start(stop) < |keys| ==> !Reconciled(ChunkAt(keys, stop), responses(stop)))
    && sent == if Start(stop + 1) < |keys| then Start(stop + 1) else |keys|
  }

  /** Relabel from `start` on: what is still unmarked is unconfirmed inside the chunk, not attempted behind it. */
  method StopUnconfirmed(outcomes: array<Label>, start: nat, end: nat, reason: Reason)
    requires start <= end <= outcomes.Length
    modifies outcomes
    ensures forall i :: 0 <= i < outcomes.Length ==>
      outcomes[i] == if i < start || !old(outcomes[i]).Confirmed? then old(outcomes[i])
        else if i < end then Unconfirmed(reason) else NotAttempted
  {
    for i := start to outcomes.Length
      invariant forall k :: i <= k < outcomes.Length ==> outcomes[k] == old(outcomes[k])
      invariant forall k :: 0 <= k < i ==>
        outcomes[k] == if k < start || !old(outcomes[k]).Confirmed? then old(outcomes[k])
          else if k < end then Unconfirmed(reason) else NotAttempted
    {
      if outcomes[i].Confirmed? {
        outcomes[i] := if i < end then Unconfirmed(reason) else NotAttempted;
      }
    }
  }

  method StopUnsupported(outcomes: array<Label>, start: nat)
    requires start <= outcomes.Length
    modifies outcomes
    ensures forall i :: 0 <= i < outcomes.Length ==> outcomes[i] == if i < start then old(outcomes[i]) else Unsupported
  {
    for i := start to outcomes.Length
      invariant forall k :: 0 <= k < outcomes.Length ==>
        outcomes[k] == if start <= k < i then Unsupported else old(outcomes[k])
    {
      outcomes[i] := Unsupported;
    }
  }

  /** The label of a key in a reconciled chunk. */
  ghost predicate LabelBefore(keys: seq<Key>, responses: nat -> Response, i: nat, mark: Label)
    requires i < |keys|
  {
    mark == if Speaks(responses(ChunkOf(i)), keys[i], true) then Confirmed else Rejected
  }

  /** The outcomes when the chunks before `c` are reconciled and nothing else has been sent. */
  ghost predicate Upto(keys: seq<Key>, responses: nat -> Response, labels: seq<Label>, c: nat) {
    && |labels| == |keys|
    && forall i :: 0 <= i < |keys| ==>
         if i < Start(c) then LabelBefore(keys, responses, i, labels[i]) else labels[i] == Confirmed
  }

  lemma ChunkPositions(keys: seq<Key>, c: nat)
    requires Start(c) < |keys|
    ensures var end := Start(c) + |ChunkAt(keys, c)|;
      && end == (if Start(c + 1) < |keys| then Start(c + 1) else |keys|)
      && Start(c) < end
      && forall i :: 0 <= i < |keys| ==>
           && (ChunkOf(i) == c <==> Start(c) <= i < end) && (ChunkOf(i) < c <==> i < Start(c))
           && (i < Start(c + 1) <==> i < end)
  {
    forall i | 0 <= i < |keys| { ChunkBounds(i, c); }
    ChunkBounds(0, c);
  }

  /** Send one chunk: either it is reconciled, or everything from it on gets its final label. */
  method DeleteChunk(outcomes: array<Label>, keys: seq<Key>, responses: nat -> Response, c: nat) returns (stopped: bool)
    requires Distinct(keys) && Start(c) < |keys| && Upto(keys, responses, outcomes[..], c)
    modifies outcomes
    ensures stopped <==> !Reconciled(ChunkAt(keys, c), responses(c))
    ensures !stopped ==> Upto(keys, responses, outcomes[..], c + 1)
    ensures stopped ==> forall i :: 0 <= i < |keys| ==> LabelOk(keys, responses, c, i, outcomes[i])
  {
    ChunkPositions(keys, c);
    hide Bijective, Mentions, LabelStopped, Start, ChunkOf;
    var chunk := ChunkAt(keys, c);
    var start := Start(c);
    var end := start + |chunk|;
    forall i | 0 <= i < |keys|
      ensures if i < start then LabelBefore(keys, responses, i, outcomes[i]) else outcomes[i] == Confirmed
    {
      assert outcomes[..][i] == outcomes[i];
    }
    stopped := true;
    match responses(c) {
      case Refusal => StopUnsupported(outcomes, start);
      case Failed(reason) => StopUnconfirmed(outcomes, start, end, reason);
      case Members(members) =>
        stopped := ReceiveMembers(outcomes, keys, c, members);
    }
  }

  /** A chunk's members: the chunk's outcomes if they are a bijection, else the stop labels. */
  method ReceiveMembers(outcomes: array<Label>, keys: seq<Key>, c: nat, members: seq<Member>) returns (stopped: bool)
    requires Distinct(keys) && Start(c) < |keys| == outcomes.Length
    requires forall i :: Start(c) <= i < |keys| ==> outcomes[i] == Confirmed
    modifies outcomes
    ensures stopped <==> !Bijective(ChunkAt(keys, c), members)
    ensures forall i :: 0 <= i < Start(c) ==> outcomes[i] == old(outcomes[i])
    ensures var end := Start(c) + |ChunkAt(keys, c)|;
      && (forall i :: Start(c) <= i < end ==>
            outcomes[i] == if stopped then LabelStopped(keys, c, members, i)
              else if Mentions(members, keys[i], true) then Confirmed else Rejected)
      && (forall i :: end <= i < |keys| ==> outcomes[i] == if stopped then NotAttempted else Confirmed)
  {
    ChunkPositions(keys, c);
    hide Bijective, Mentions, Taken, Start;
    var chunk := ChunkAt(keys, c);
    var start := Start(c);
    var end := start + |chunk|;
    var bijective := Reconcile(outcomes, start, chunk, members);
    ghost var labels := outcomes[start..end];
    assert forall i :: start <= i < end ==> outcomes[i] == labels[i - start] && keys[i] == chunk[i - start];
    stopped := !bijective;
    if stopped { StopUnconfirmed(outcomes, start, end, InvalidResponse); }
  }

  /**
   Chunk after chunk until one is not reconciled.  A key is confirmed only where a bijective response
   of its own chunk said so; nothing behind a stopped chunk was sent.
  */
  method Delete(keys: seq<Key>, responses: nat -> Response) returns (outcomes: array<Label>, sent: nat, ghost stop: nat)
    requires Distinct(keys)
    ensures fresh(outcomes) && Accounted(keys, responses, outcomes[..], sent, stop)
  {
    hide Reconciled, Start, ChunkOf, LabelBefore, Speaks, ChunkAt;
    outcomes := new Label[|keys|](_ => Confirmed);
    stop, sent := 0, 0;
    var c := 0;
    ChunkBounds(0, 0);
    while Start(c) < |keys|
      invariant stop == c && fresh(outcomes) && Upto(keys, responses, outcomes[..], c)
      invariant sent == if Start(c) < |keys| then Start(c) else |keys|
      invariant forall d :: 0 <= d < c ==> Start(d) < |keys| && Reconciled(ChunkAt(keys, d), responses(d))
      decreases |keys| - Start(c)
    {
      ChunkPositions(keys, c);
      ChunkBounds(0, c);
      sent := Start(c) + |ChunkAt(keys, c)|;
      var stopped := DeleteChunk(outcomes, keys, responses, c);
      if stopped { return; }
      c := c + 1;
      stop := c;
    }
    forall i | 0 <= i < |keys| ensures ChunkOf(i) < c { ChunkBounds(i, c); }
    ChunkBounds(0, c);
  }

  /** Confirmed exactly where a reconciled chunk's own response said deleted. */
  lemma ConfirmedIff(keys: seq<Key>, responses: nat -> Response, labels: seq<Label>, sent: nat, stop: nat, i: nat)
    requires Accounted(keys, responses, labels, sent, stop) && i < |keys|
    ensures labels[i].Confirmed? <==>
      ChunkOf(i) < stop && Speaks(responses(ChunkOf(i)), keys[i], true)
    ensures labels[i].Confirmed? ==> Reconciled(ChunkAt(keys, ChunkOf(i)), responses(ChunkOf(i)))
  {
    ChunkBounds(i, ChunkOf(i));
    hide Reconciled, Speaks, Start, ChunkOf;
    assert LabelOk(keys, responses, stop, i, labels[i]);
  }

  /** Everything that was never sent carries one and the same label, and no key that was sent carries NotAttempted. */
  lemma UniformTail(keys: seq<Key>, responses: nat -> Response, labels: seq<Label>, sent: nat, stop: nat, i: nat)
    requires Accounted(keys, responses, labels, sent, stop) && i < |keys|
    ensures i >= sent ==> labels[i] == if responses(stop).Refusal? then Unsupported else NotAttempted
    ensures i < sent ==> !labels[i].NotAttempted?
  {
    ChunkBounds(i, stop);
    ChunkBounds(i, stop + 1);
    hide Reconciled, Speaks, Start, ChunkOf;
    assert LabelOk(keys, responses, stop, i, labels[i]);
  }

  /** The whole call, admission first: an inadmissible input sends nothing. */
  method Call(namespace: Key, keys: seq<Key>, responses: nat -> Response)
    returns (error: Option<InputError>, outcomes: array<Label>, sent: nat, ghost stop: nat)
    ensures AdmissionIs(namespace, keys, error)
    ensures error.Some? ==> sent == 0 && outcomes.Length == 0
    ensures error.None? ==> Accounted(keys, responses, outcomes[..], sent, stop)
  {
    error := Admit(namespace, keys);
    if error.Some? {
      outcomes, sent, stop := new Label[0], 0, 0;
    } else {
      outcomes, sent, stop := Delete(keys, responses);
    }
  }

  /** A key can keep the label Rejected although the response that said so was refused as a whole. */
  lemma RejectedByRefusedResponse(responses: nat -> Response, labels: seq<Label>, sent: nat, stop: nat)
    requires responses(0) == Members([Member("a", false)])
    requires Accounted(["a", "b"], responses, labels, sent, stop)
    ensures stop == 0 && labels == [Rejected, Unconfirmed(InvalidResponse)]
    ensures !Reconciled(ChunkAt(["a", "b"], 0), responses(0))
  {
    var keys, members := ["a", "b"], [Member("a", false)];
    assert ChunkAt(keys, 0) == keys;
    assert LabelOk(keys, responses, stop, 0, labels[0]) && LabelOk(keys, responses, stop, 1, labels[1]);
    assert !Reconciled(ChunkAt(keys, 0), responses(0));
    assert Fits(keys, members, 0) && FirstMisfit(keys, members, 0) == FirstMisfit(keys, members, 1) == 1;
    assert Taken(keys, members) == members && members[0] == Member("a", false);
  }
}
