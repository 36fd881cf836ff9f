/**
 * The per-card playback toggle of `AffirmationsCard`: two remembered values,
 * `isClick` and the nullable `mediaPlayer`, which the play/pause button's
 * click handler updates. The platform's media players appear only as opaque
 * handles; every call the handler makes on them is recorded in a log, so that
 * what happens to them can be stated.
 */
module Playback {
  import opened Wrappers
  import opened Search

  /** An opaque platform `MediaPlayer`. */
  datatype Handle = Handle(id: nat)

  /** One call the card makes into the platform media service. */
  datatype PlayerCall =
    | Create(sound: ResId, result: Option<Handle>)  // `MediaPlayer.create(context, sound)`; None when it returned null
    | Start(player: Handle)
    | Pause(player: Handle)
    | Release(player: Handle)

  /** The card's two remembered values. */
  datatype CardState = CardState(isClick: bool, mediaPlayer: Option<Handle>)

  /** Both values as `remember` first creates them. */
  const Initial: CardState := CardState(false, None)

  /** A card only holds a player while it is switched on. */
  predicate Consistent(s: CardState)
  {
    s.mediaPlayer.Some? ==> s.isClick
  }

  /** The players a state holds, as a multiset (empty or a single handle). */
  function Holding(s: CardState): multiset<Handle>
  {
    if s.mediaPlayer.Some? then multiset{s.mediaPlayer.value} else multiset{}
  }

  /**
   * The state after one click; `created` is what `MediaPlayer.create` returns
   * when the click calls it, and is not used by a click that switches off.
   */
  function Toggle(s: CardState, created: Option<Handle>): (t: CardState)
    ensures t.isClick == !s.isClick
    ensures Consistent(t)
    ensures t.isClick ==> t.mediaPlayer == created
    ensures !t.isClick ==> t == Initial
  {
    if !s.isClick then CardState(true, created) else CardState(false, None)
  }

  /** The player a call is addressed to, if any. */
  function Target(c: PlayerCall): Option<Handle>
  {
    if c.Create? then None else Some(c.player)
  }

  /**
   * The platform calls one click makes, in order. A click that switches on
   * creates a player for this card's sound; one that switches off creates
   * nothing; and every other call goes to the player the card held or the one
   * just created, never to another card's.
   */
  function ToggleCalls(s: CardState, sound: ResId, created: Option<Handle>): (r: seq<PlayerCall>)
    ensures !s.isClick ==> Create(sound, created) in r
    ensures forall c :: c in r && c.Create? ==> !s.isClick && c == Create(sound, created)
    ensures forall c :: c in r && !c.Create? ==> Target(c) == s.mediaPlayer || Target(c) == created
  {
    if !s.isClick then
      (if s.mediaPlayer.Some? then [Release(s.mediaPlayer.value)] else [])
      + [Create(sound, created)]
      + (if created.Some? then [Start(created.value)] else [])
    else
      if s.mediaPlayer.Some? then [Pause(s.mediaPlayer.value), Release(s.mediaPlayer.value)] else []
  }

  /** The icon the button shows: the pause icon while switched on, the play icon otherwise. */
  function Icon(a: Affirmation, s: CardState): (r: ResId)
    ensures r == a.iconPause || r == a.iconResourceId
    ensures a.iconPause != a.iconResourceId ==> (r == a.iconPause <==> s.isClick)
  {
    if s.isClick then a.iconPause else a.iconResourceId
  }

  /** The players alive after one call, the players in `live` being alive before it. */
  function Effect(live: multiset<Handle>, c: PlayerCall): multiset<Handle>
  {
    match c
    case Create(_, Some(h)) => live + multiset{h}
    case Release(h) => live - multiset{h}
    case _ => live
  }

  /** The call is a creation, or is addressed to a player in `live`. */
  predicate Addresses(live: multiset<Handle>, c: PlayerCall)
  {
    match c
    case Create(_, _) => true
    case Start(h) => h in live
    case Pause(h) => h in live
    case Release(h) => h in live
  }

  /** The players still alive after `calls`, starting from the players in `live`. */
  function Apply(live: multiset<Handle>, calls: seq<PlayerCall>): multiset<Handle>
    decreases |calls|
  {
    if calls == [] then live else Apply(Effect(live, calls[0]), calls[1..])
  }

  /** The players alive after a log that starts with none. */
  function Live(calls: seq<PlayerCall>): multiset<Handle>
  {
    Apply(multiset{}, calls)
  }

  /** Every start, pause and release in `calls` is addressed to a player alive at that moment. */
  predicate Disciplined(live: multiset<Handle>, calls: seq<PlayerCall>)
    decreases |calls|
  {
    calls == [] || (Addresses(live, calls[0]) && Disciplined(Effect(live, calls[0]), calls[1..]))
  }

  lemma {:induction false} ApplyAppend(live: multiset<Handle>, xs: seq<PlayerCall>, ys: seq<PlayerCall>)
    ensures Apply(live, xs + ys) == Apply(Apply(live, xs), ys)
    ensures Disciplined(live, xs + ys) <==> Disciplined(live, xs) && Disciplined(Apply(live, xs), ys)
    decreases |xs|
  {
    if xs == [] {
      assert xs + ys == ys;
    } else {
      assert (xs + ys)[0] == xs[0];
      assert (xs + ys)[1..] == xs[1..] + ys;
      ApplyAppend(Effect(live, xs[0]), xs[1..], ys);
    }
  }

  lemma ApplyOne(live: multiset<Handle>, c: PlayerCall)
    ensures Apply(live, [c]) == Effect(live, c)
    ensures Disciplined(live, [c]) <==> Addresses(live, c)
  {
    assert [c][1..] == [];
  }

  /** The calls of a click that switches on, from any state, keep the log's accounting. */
  lemma TurnOnAccounted(s: CardState, sound: ResId, created: Option<Handle>)
    requires !s.isClick
    ensures Apply(Holding(s), ToggleCalls(s, sound, created)) == Holding(Toggle(s, created))
    ensures Disciplined(Holding(s), ToggleCalls(s, sound, created))
  {
    var live := Holding(s);
    var released := if s.mediaPlayer.Some? then [Release(s.mediaPlayer.value)] else [];
    var started := if created.Some? then [Start(created.value)] else [];
    if s.mediaPlayer.Some? {
      ApplyOne(live, Release(s.mediaPlayer.value));
    }
    assert Apply(live, released) == multiset{} && Disciplined(live, released);
    ApplyOne(multiset{}, Create(sound, created));
    var held := Effect(multiset{}, Create(sound, created));
    if created.Some? {
      ApplyOne(held, Start(created.value));
    }
    assert Apply(held, started) == held && Disciplined(held, started);
    ApplyAppend(multiset{}, [Create(sound, created)], started);
    ApplyAppend(live, released, [Create(sound, created)] + started);
    assert ToggleCalls(s, sound, created) == released + ([Create(sound, created)] + started);
  }

  /** The calls of a click that switches off keep the log's accounting. */
  lemma TurnOffAccounted(s: CardState, sound: ResId, created: Option<Handle>)
    requires s.isClick
    ensures Apply(Holding(s), ToggleCalls(s, sound, created)) == Holding(Toggle(s, created))
    ensures Disciplined(Holding(s), ToggleCalls(s, sound, created))
  {
    if s.mediaPlayer.Some? {
      var live := Holding(s);
      var h := s.mediaPlayer.value;
      ApplyOne(live, Pause(h));
      ApplyOne(live, Release(h));
      ApplyAppend(live, [Pause(h)], [Release(h)]);
      assert ToggleCalls(s, sound, created) == [Pause(h)] + [Release(h)];
    }
  }

  /**
   * One click, from any state: afterwards the card is consistent, the players
   * alive are exactly the one it holds, and the click only addressed players
   * that were alive.
   */
  lemma ToggleStep(s: CardState, sound: ResId, created: Option<Handle>)
    ensures Consistent(Toggle(s, created))
    ensures Apply(Holding(s), ToggleCalls(s, sound, created)) == Holding(Toggle(s, created))
    ensures Disciplined(Holding(s), ToggleCalls(s, sound, created))
  {
    if s.isClick {
      TurnOffAccounted(s, sound, created);
    } else {
      TurnOnAccounted(s, sound, created);
    }
  }

  /** Switching on from a consistent state releases nothing: the state holds no player then. */
  lemma TurnOnReleasesNothing(s: CardState, sound: ResId, created: Option<Handle>)
    requires Consistent(s) && !s.isClick
    ensures forall h :: Release(h) !in ToggleCalls(s, sound, created)
    ensures ToggleCalls(s, sound, created)[0] == Create(sound, created)
  {
  }

  /** A click that switches on calls `create` exactly once. */
  lemma TurnOnCreatesOnce(s: CardState, sound: ResId, created: Option<Handle>)
    requires !s.isClick
    ensures multiset(ToggleCalls(s, sound, created))[Create(sound, created)] == 1
  {
    var released := if s.mediaPlayer.Some? then [Release(s.mediaPlayer.value)] else [];
    var started := if created.Some? then [Start(created.value)] else [];
    assert ToggleCalls(s, sound, created) == released + [Create(sound, created)] + started;
    assert multiset(released)[Create(sound, created)] == 0;
    assert multiset(started)[Create(sound, created)] == 0;
  }

  /** Switching on releases the player it holds before it creates the next one, and starts only the new one. */
  lemma TurnOnReleasesFirst(s: CardState, sound: ResId, created: Option<Handle>)
    requires !s.isClick && s.mediaPlayer.Some?
    ensures ToggleCalls(s, sound, created)[..2] == [Release(s.mediaPlayer.value), Create(sound, created)]
    ensures Toggle(s, created).mediaPlayer == created
  {
  }

  /** Switching off pauses and then releases the held player, and leaves no player held. */
  lemma TurnOffReleases(s: CardState, sound: ResId, created: Option<Handle>)
    requires s.isClick
    ensures Toggle(s, created) == Initial
    ensures s.mediaPlayer.Some? ==> ToggleCalls(s, sound, created) == [Pause(s.mediaPlayer.value), Release(s.mediaPlayer.value)]
    ensures s.mediaPlayer.None? ==> ToggleCalls(s, sound, created) == []
  {
  }

  /** Each click flips `isClick`, and with it the icon. */
  lemma IconAfterToggle(a: Affirmation, s: CardState, created: Option<Handle>)
    ensures Toggle(s, created).isClick == !s.isClick
    ensures Icon(a, Toggle(s, created)) == if s.isClick then a.iconResourceId else a.iconPause
  {
  }

  /** The state after a series of clicks, `outcomes[i]` being what `create` returns on click i. */
  function After(s: CardState, outcomes: seq<Option<Handle>>): CardState
  {
    if outcomes == [] then s
    else Toggle(After(s, outcomes[..|outcomes| - 1]), outcomes[|outcomes| - 1])
  }

  /** The platform calls made by a series of clicks, in order. */
  function CallsOf(s: CardState, sound: ResId, outcomes: seq<Option<Handle>>): seq<PlayerCall>
  {
    if outcomes == [] then []
    else
      var before := outcomes[..|outcomes| - 1];
      CallsOf(s, sound, before) + ToggleCalls(After(s, before), sound, outcomes[|outcomes| - 1])
  }

  /**
   * From the initial state, whatever `create` returns: the card stays
   * consistent, the players alive are exactly the one it holds (so it never
   * holds more than one, and none leaks while the card lives), and it never
   * starts, pauses or releases a player that is not alive.
   */
  lemma {:induction false} ClicksKeepInvariant(sound: ResId, outcomes: seq<Option<Handle>>)
    ensures Consistent(After(Initial, outcomes))
    ensures Live(CallsOf(Initial, sound, outcomes)) == Holding(After(Initial, outcomes))
    ensures Disciplined(multiset{}, CallsOf(Initial, sound, outcomes))
  {
    if outcomes != [] {
      var before := outcomes[..|outcomes| - 1];
      var last := outcomes[|outcomes| - 1];
      ClicksKeepInvariant(sound, before);
      var s := After(Initial, before);
      ToggleStep(s, sound, last);
      ApplyAppend(multiset{}, CallsOf(Initial, sound, before), ToggleCalls(s, sound, last));
    }
  }

  /**
   * Two clicks from the initial state return to it; the one player created,
   * if any, is started, paused and released exactly once, in that order.
   */
  lemma TwoClicks(sound: ResId, first: Option<Handle>, second: Option<Handle>)
    ensures After(Initial, [first, second]) == Initial
    ensures CallsOf(Initial, sound, [first, second])
            == [Create(sound, first)]
               + (if first.Some? then [Start(first.value), Pause(first.value), Release(first.value)] else [])
  {
    assert [first, second][..1] == [first];
    assert [first][..0] == [];
    assert After(Initial, [first]) == CardState(true, first);
    assert CallsOf(Initial, sound, [first]) == ToggleCalls(Initial, sound, first);
  }

  /**
   * When `create` fails, the card is nevertheless switched on: it shows the
   * pause icon and holds no player; the next click switches it off without
   * any platform call.
   */
  lemma CreateFails(a: Affirmation, next: Option<Handle>)
    ensures Toggle(Initial, None) == CardState(true, None)
    ensures Icon(a, Toggle(Initial, None)) == a.iconPause
    ensures ToggleCalls(Initial, a.soundRes, None) == [Create(a.soundRes, None)]
    ensures Toggle(Toggle(Initial, None), next) == Initial
    ensures ToggleCalls(Toggle(Initial, None), a.soundRes, next) == []
  {
  }

  /** One card on screen: its affirmation, its two remembered values and the log of its platform calls. */
  class AffirmationsCard {
    const affirmation: Affirmation
    var isClick: bool
    var mediaPlayer: Option<Handle>
    ghost var calls: seq<PlayerCall>

    function State(): CardState
      reads this
    {
      CardState(isClick, mediaPlayer)
    }

    /** The log accounts for the card: the player it holds is the only one alive, and no call missed its player. */
    ghost predicate Accounted()
      reads this
    {
      Live(calls) == Holding(State()) && Disciplined(multiset{}, calls)
    }

    /** Moreover the card holds a player only while switched on. */
    ghost predicate Valid()
      reads this
    {
      Consistent(State()) && Accounted()
    }

    constructor (affirmation: Affirmation)
      ensures Valid()
      ensures this.affirmation == affirmation
      ensures State() == Initial && calls == []
    {
      this.affirmation := affirmation;
      isClick := false;
      mediaPlayer := None;
      calls := [];
    }

    /** The icon the button currently shows. */
    function CurrentIcon(): (r: ResId)
      reads this
      ensures isClick ==> r == affirmation.iconPause
      ensures !isClick ==> r == affirmation.iconResourceId
    {
      Icon(affirmation, State())
    }

    /**
     * The button's click handler; `created` is what `MediaPlayer.create`
     * returns if it is called. It needs only `Accounted()`: from a valid card
     * the release before `create` never finds a player, and the handler keeps
     * its promises from the other states too.
     */
    method OnClick(created: Option<Handle>)
      requires Accounted()
      modifies this
      ensures Valid()
      ensures State() == Toggle(old(State()), created)
      ensures calls == old(calls) + ToggleCalls(old(State()), affirmation.soundRes, created)
    {
      ghost var s := State();
      isClick := !isClick;
      if isClick {
        if mediaPlayer.Some? {
          calls := calls + [Release(mediaPlayer.value)];
        }
        mediaPlayer := created;
        calls := calls + [Create(affirmation.soundRes, created)];
        if mediaPlayer.Some? {
          calls := calls + [Start(mediaPlayer.value)];
        }
      } else {
        if mediaPlayer.Some? {
          calls := calls + [Pause(mediaPlayer.value)];
        }
        if mediaPlayer.Some? {
          calls := calls + [Release(mediaPlayer.value)];
        }
        mediaPlayer := None;
      }
      assert State() == Toggle(s, created);
      assert calls == old(calls) + ToggleCalls(s, affirmation.soundRes, created);
      ToggleStep(s, affirmation.soundRes, created);
      ApplyAppend(multiset{}, old(calls), ToggleCalls(s, affirmation.soundRes, created));
    }
  }

  /**
   * A card clicked twice, `create` succeeding the first time: the pause icon
   * shows in between, the play icon afterwards, and the player is started,
   * paused and released once each.
   */
  method ClickTwice(a: Affirmation, h: Handle, next: Option<Handle>)
    returns (iconWhilePlaying: ResId, iconAfter: ResId, ghost calls: seq<PlayerCall>)
    ensures iconWhilePlaying == a.iconPause && iconAfter == a.iconResourceId
    ensures calls == [Create(a.soundRes, Some(h)), Start(h), Pause(h), Release(h)]
  {
    var card := new AffirmationsCard(a);
    card.OnClick(Some(h));
    iconWhilePlaying := card.CurrentIcon();
    card.OnClick(next);
    iconAfter := card.CurrentIcon();
    calls := card.calls;
  }
}
