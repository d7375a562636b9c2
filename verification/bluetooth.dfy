/** Bluetooth card and profile rules of the client's PipeWire/PulseAudio
    helpers: card names, the profile parser over `pactl list cards`, the
    HFP and A2DP profile choice and the RUNNING test.

    Command output is given as its lines. Whether `pactl set-card-profile`
    succeeds is given as `accepts`, the set of profiles whose switch
    succeeds; a switch is recorded in `attempts`, in the order it is made. */
module Bluetooth {
  import opened Basics
  import opened Text

  const CardPrefix := "bluez_card."

  // ---------------------------------------------------------------------
  // Card names

  /** `mac_to_card_name` */
  function MacToCardName(mac: string): (r: string)
    ensures StartsWith(r, CardPrefix) && |r| == |CardPrefix| + |mac|
    ensures ':' !in r
    ensures forall i :: 0 <= i < |mac| ==>
      r[|CardPrefix| + i] == if mac[i] == ':' then '_' else mac[i]
  {
    CardPrefix + ReplaceChar(mac, ':', '_')
  }

  /** `card_name_to_mac` */
  function CardNameToMac(name: string): (r: string)
    ensures |r| <= |name| && '_' !in r
  {
    ReplaceChar(TrimStartMatches(name, CardPrefix), '_', ':')
  }

  /** A MAC (which never holds a '.') survives the trip to a card name and
      back, up to writing its separators as ':'. */
  lemma {:induction false} MacCardNameRoundTrip(mac: string)
    requires '.' !in mac
    ensures CardNameToMac(MacToCardName(mac)) == ReplaceChar(mac, '_', ':')
  {
    var u := ReplaceChar(mac, ':', '_');
    assert MacToCardName(mac) == CardPrefix + u;
    assert StartsWith(CardPrefix + u, CardPrefix);
    assert (CardPrefix + u)[|CardPrefix|..] == u;
    assert !StartsWith(u, CardPrefix) by {
      if |CardPrefix| <= |u| { assert u[..|CardPrefix|][10] == u[10] != '.'; }
    }
    assert TrimStartMatches(u, CardPrefix) == u;
  }

  /** On a colon-form MAC the round trip is the identity. */
  lemma {:induction false} ColonMacRoundTrip(mac: string)
    requires '.' !in mac && '_' !in mac
    ensures CardNameToMac(MacToCardName(mac)) == mac
  {
    MacCardNameRoundTrip(mac);
    var r := ReplaceChar(mac, '_', ':');
    assert forall i :: 0 <= i < |mac| ==> r[i] == mac[i];
  }

  // ---------------------------------------------------------------------
  // HFP codec

  /** `HfpCodec`, which HFP mode was activated. */
  datatype HfpCodec = MSbc | Cvsd | PhoneGateway {
    /** `HfpCodec::label` */
    function Label(): (r: string)
      ensures r != []
    {
      match this
      case MSbc => "mSBC (16 kHz wideband)"
      case Cvsd => "CVSD (8 kHz narrowband)"
      case PhoneGateway => "Audio Gateway (phone HFP mode)"
    }
  }

  /** Each codec has its own label. */
  lemma LabelsDistinct(a: HfpCodec, b: HfpCodec)
    ensures a.Label() == b.Label() <==> a == b
  {
  }

  // ---------------------------------------------------------------------
  // available_profiles: the profile names of one card in `pactl list cards`

  function CardHeader(card: string): string {
    "Name: " + card
  }

  /** A header line of some Bluetooth card. */
  predicate IsCardLine(t: string) {
    StartsWith(t, "Name: bluez_card.")
  }

  /** A header line of some other Bluetooth card. */
  predicate IsOtherCardLine(t: string, card: string) {
    IsCardLine(t) && t != CardHeader(card)
  }

  /** The profile name on a trimmed profile line: the trimmed text before
      its first ':'. */
  function ProfileName(t: string): (r: string)
    ensures ':' !in r
    ensures r != [] ==> !IsWhitespace(r[0]) && !IsWhitespace(r[|r| - 1])
  {
    TrimKeepsOnly(BeforeChar(t, ':'), ':');
    Trim(BeforeChar(t, ':'))
  }

  /** The parser's state: the `in_card` and `in_profs` flags, the names
      collected so far, and whether the loop has left with `break`. */
  datatype ScanState = ScanState(inCard: bool, inProfs: bool, profiles: seq<string>, stopped: bool)

  const ScanStart := ScanState(false, false, [], false)

  /** One iteration of the loop, on the trimmed line `t`. */
  function ScanStep(card: string, st: ScanState, t: string): ScanState {
    if st.stopped then st
    else if t == CardHeader(card) then ScanState(true, false, [], false)
    else if !st.inCard then st
    // the source also asks `t != CardHeader(card)`, settled by the test above
    else if IsCardLine(t) then st.(stopped := true)
    else if t == "Profiles:" then st.(inProfs := true)
    else if !st.inProfs then st
    else if StartsWith(t, "Active Profile:") then st.(stopped := true)
    else if ProfileName(t) != [] then st.(profiles := st.profiles + [ProfileName(t)])
    else st
  }

  /** The loop over the trimmed lines `ts`. */
  function Scan(card: string, st: ScanState, ts: seq<string>): ScanState
    decreases |ts|
  {
    if ts == [] then st else Scan(card, ScanStep(card, st, ts[0]), ts[1..])
  }

  /** Every line of `lines`, trimmed. */
  function TrimLines(lines: seq<string>): (r: seq<string>)
    ensures |r| == |lines|
    ensures forall m :: 0 <= m < |lines| ==> r[m] == Trim(lines[m])
  {
    if lines == [] then [] else [Trim(lines[0])] + TrimLines(lines[1..])
  }

  /** What `available_profiles(card)` returns for the listing `listing`. */
  function ProfilesListed(listing: seq<string>, card: string): seq<string> {
    Scan(card, ScanStart, TrimLines(listing)).profiles
  }

  /** `available_profiles`, the loop as the source writes it. */
  method AvailableProfiles(listing: seq<string>, card: string) returns (profiles: seq<string>)
    ensures profiles == ProfilesListed(listing, card)
  {
    ghost var ts := TrimLines(listing);
    var inCard, inProfs := false, false;
    profiles := [];
    for i := 0 to |listing|
      invariant Scan(card, ScanState(inCard, inProfs, profiles, false), ts[i..])
             == Scan(card, ScanStart, ts)
    {
      var trimmed := Trim(listing[i]);
      assert ts[i..][0] == trimmed && ts[i..][1..] == ts[i + 1..];
      if trimmed == CardHeader(card) {
        inCard, inProfs, profiles := true, false, [];
        continue;
      }
      if !inCard {
        continue;
      }
      if StartsWith(trimmed, "Name: bluez_card.") && trimmed != CardHeader(card) {
        ScanStopped(card, ScanState(inCard, inProfs, profiles, true), ts[i + 1..]);
        break;
      }
      if trimmed == "Profiles:" {
        inProfs := true;
        continue;
      }
      if inProfs {
        if StartsWith(trimmed, "Active Profile:") {
          ScanStopped(card, ScanState(inCard, inProfs, profiles, true), ts[i + 1..]);
          break;
        }
        var name := Trim(BeforeChar(trimmed, ':'));
        if name != [] {
          profiles := profiles + [name];
        }
      }
    }
  }

  /** Once the loop has left, later lines change nothing. */
  lemma {:induction false} ScanStopped(card: string, st: ScanState, ts: seq<string>)
    requires st.stopped
    ensures Scan(card, st, ts) == st
    decreases |ts|
  {
    if ts != [] {
      ScanStopped(card, ScanStep(card, st, ts[0]), ts[1..]);
    }
  }

  lemma {:induction false} ScanAppend(card: string, st: ScanState, a: seq<string>, b: seq<string>)
    ensures Scan(card, st, a + b) == Scan(card, Scan(card, st, a), b)
    decreases |a|
  {
    if a == [] {
      assert a + b == b;
    } else {
      assert (a + b)[0] == a[0] && (a + b)[1..] == a[1..] + b;
      ScanAppend(card, ScanStep(card, st, a[0]), a[1..], b);
    }
  }

  /** The scan, cut at line `i`. */
  lemma {:induction false} ScanAt(card: string, ts: seq<string>, i: nat)
    requires i < |ts|
    ensures Scan(card, ScanStart, ts)
         == Scan(card, ScanStep(card, Scan(card, ScanStart, ts[..i]), ts[i]), ts[i + 1..])
  {
    assert ts == ts[..i] + ts[i..];
    ScanAppend(card, ScanStart, ts[..i], ts[i..]);
    assert ts[i..][0] == ts[i] && ts[i..][1..] == ts[i + 1..];
  }

  // The predicates below describe the trimmed lines `ts` of a listing.

  /** Line `m` ends a card's block: it is this card's header again or the
      header of some Bluetooth card. */
  predicate EndsBlockAt(ts: seq<string>, card: string, m: int) {
    0 <= m < |ts| && (ts[m] == CardHeader(card) || IsCardLine(ts[m]))
  }

  predicate ActiveAt(ts: seq<string>, m: int) {
    0 <= m < |ts| && StartsWith(ts[m], "Active Profile:")
  }

  /** Line `h` is the card's header and no line before `n` has ended its block. */
  ghost predicate OpenAt(ts: seq<string>, card: string, h: int, n: int) {
    0 <= h < n <= |ts| && ts[h] == CardHeader(card)
    && forall m :: h < m < n ==> !EndsBlockAt(ts, card, m)
  }

  /** In the block opened at `h`, line `k` is "Profiles:" and no line
      between it and `n` is an "Active Profile:" line. */
  ghost predicate ProfilesOpenAt(ts: seq<string>, card: string, h: int, k: int, n: int) {
    OpenAt(ts, card, h, n) && h < k < n && ts[k] == "Profiles:"
    && forall m :: k < m < n ==> !ActiveAt(ts, m)
  }

  /** `p` is the non-empty name on line `j`, a line of the profile section
      that `k` opens in the card block that `h` opens: line `j` itself is
      no card header, no "Active Profile:" line and no second "Profiles:". */
  ghost predicate Origin(ts: seq<string>, card: string, p: string, h: int, k: int, j: int) {
    ProfilesOpenAt(ts, card, h, k, j + 1) && ts[j] != "Profiles:" && p == ProfileName(ts[j]) && p != []
  }

  ghost predicate ScanInv(ts: seq<string>, card: string, n: int, st: ScanState) {
    && (st.inProfs ==> st.inCard)
    && (!st.inCard ==> st.profiles == [])
    && (!st.stopped && st.inCard ==> exists h :: OpenAt(ts, card, h, n))
    && (!st.stopped && st.inProfs ==> exists h, k :: ProfilesOpenAt(ts, card, h, k, n))
    && (forall p :: p in st.profiles ==> exists h, k, j :: Origin(ts, card, p, h, k, j))
  }

  lemma {:induction false} ExtendOpen(ts: seq<string>, card: string, h: int, n: int)
    requires OpenAt(ts, card, h, n) && n < |ts| && !EndsBlockAt(ts, card, n)
    ensures OpenAt(ts, card, h, n + 1)
  {
  }

  lemma {:induction false} ExtendProfilesOpen(ts: seq<string>, card: string, h: int, k: int, n: int)
    requires ProfilesOpenAt(ts, card, h, k, n) && n < |ts|
    requires !EndsBlockAt(ts, card, n) && !ActiveAt(ts, n)
    ensures ProfilesOpenAt(ts, card, h, k, n + 1)
  {
    ExtendOpen(ts, card, h, n);
  }

  lemma {:induction false} StepKeepsScanInv(ts: seq<string>, card: string, i: int, st: ScanState)
    requires 0 <= i < |ts| && ScanInv(ts, card, i, st)
    ensures ScanInv(ts, card, i + 1, ScanStep(card, st, ts[i]))
  {
    var t := ts[i];
    if st.stopped || (t != CardHeader(card) && (!st.inCard || IsCardLine(t))) {
      StepOutsideBlock(ts, card, i, st);
    } else if t == CardHeader(card) {
      assert OpenAt(ts, card, i, i + 1);
    } else {
      StepInsideBlock(ts, card, i, st);
    }
  }

  /** A line the loop skips, or one that makes it leave. */
  lemma {:induction false} StepOutsideBlock(ts: seq<string>, card: string, i: int, st: ScanState)
    requires 0 <= i < |ts| && ScanInv(ts, card, i, st)
    requires st.stopped || (ts[i] != CardHeader(card) && (!st.inCard || IsCardLine(ts[i])))
    ensures ScanInv(ts, card, i + 1, ScanStep(card, st, ts[i]))
  {
    assert ScanStep(card, st, ts[i]) == if st.stopped || !st.inCard then st else st.(stopped := true);
  }

  /** A line inside the card's block that is not a card header. */
  lemma {:induction false} StepInsideBlock(ts: seq<string>, card: string, i: int, st: ScanState)
    requires 0 <= i < |ts| && ScanInv(ts, card, i, st)
    requires !st.stopped && st.inCard && ts[i] != CardHeader(card) && !IsCardLine(ts[i])
    ensures ScanInv(ts, card, i + 1, ScanStep(card, st, ts[i]))
  {
    var t := ts[i];
    assert !EndsBlockAt(ts, card, i);
    var h :| OpenAt(ts, card, h, i);
    ExtendOpen(ts, card, h, i);
    if t == "Profiles:" {
      assert ProfilesOpenAt(ts, card, h, i, i + 1);
    } else if st.inProfs && !StartsWith(t, "Active Profile:") {
      var h', k :| ProfilesOpenAt(ts, card, h', k, i);
      ExtendProfilesOpen(ts, card, h', k, i);
      if ProfileName(t) != [] {
        assert Origin(ts, card, ProfileName(t), h', k, i);
      }
    }
  }

  lemma {:induction false} ScanInvariant(ts: seq<string>, card: string, n: nat)
    requires n <= |ts|
    ensures ScanInv(ts, card, n, Scan(card, ScanStart, ts[..n]))
  {
    if n == 0 {
      assert ts[..0] == [];
    } else {
      ScanInvariant(ts, card, n - 1);
      var st := Scan(card, ScanStart, ts[..n - 1]);
      assert ts[..n] == ts[..n - 1] + [ts[n - 1]];
      ScanAppend(card, ScanStart, ts[..n - 1], [ts[n - 1]]);
      assert Scan(card, st, [ts[n - 1]]) == ScanStep(card, st, ts[n - 1]);
      StepKeepsScanInv(ts, card, n - 1, st);
    }
  }

  /** Every collected name is the trimmed text before the first ':' of a
      line that follows a "Profiles:" line of the block opened by the
      card's own "Name:" line, with no Bluetooth card header and no
      "Active Profile:" line in between; it is never empty. */
  lemma {:induction false} ProfilesComeFromProfilesSection(listing: seq<string>, card: string, p: string)
    requires p in ProfilesListed(listing, card)
    ensures exists h, k, j :: Origin(TrimLines(listing), card, p, h, k, j)
    ensures p != [] && ':' !in p
  {
    var ts := TrimLines(listing);
    ScanInvariant(ts, card, |ts|);
    assert ts[..|ts|] == ts;
    var h, k, j :| Origin(ts, card, p, h, k, j);
  }

  /** A card with no "Name:" line of its own has no profiles. */
  lemma {:induction false} NoHeaderNoProfiles(listing: seq<string>, card: string)
    requires forall m :: 0 <= m < |listing| ==> Trim(listing[m]) != CardHeader(card)
    ensures ProfilesListed(listing, card) == []
  {
    if ProfilesListed(listing, card) != [] {
      ProfilesComeFromProfilesSection(listing, card, ProfilesListed(listing, card)[0]);
    }
  }

  /** A repeated "Name: <card>" line, reached while the loop still runs,
      discards everything collected before it. */
  lemma {:induction false} RepeatedHeaderClears(listing: seq<string>, card: string, i: nat)
    requires i < |listing| && Trim(listing[i]) == CardHeader(card)
    requires !Scan(card, ScanStart, TrimLines(listing[..i])).stopped
    ensures ProfilesListed(listing, card) == ProfilesListed(listing[i..], card)
  {
    var ts := TrimLines(listing);
    TrimLinesPrefix(listing, i);
    TrimLinesSuffix(listing, i);
    ScanAt(card, ts, i);
    ScanAt(card, ts[i..], 0);
    assert ts[i..][..0] == [] && ts[i..][1..] == ts[i + 1..];
  }

  lemma {:induction false} TrimLinesSuffix(lines: seq<string>, i: nat)
    requires i <= |lines|
    ensures TrimLines(lines[i..]) == TrimLines(lines)[i..]
  {
  }

  /** Inside the card's block, a header of another Bluetooth card, or an
      "Active Profile:" line within the profile section, ends the parse:
      the result is what was collected before it. */
  lemma {:induction false} StopsAtOtherCardOrActiveProfile(listing: seq<string>, card: string, i: nat)
    requires i < |listing|
    requires var st := Scan(card, ScanStart, TrimLines(listing[..i]));
      !st.stopped && st.inCard
      && (IsOtherCardLine(Trim(listing[i]), card)
          || (st.inProfs && StartsWith(Trim(listing[i]), "Active Profile:")))
    ensures ProfilesListed(listing, card) == Scan(card, ScanStart, TrimLines(listing[..i])).profiles
  {
    var ts := TrimLines(listing);
    TrimLinesPrefix(listing, i);
    var st := Scan(card, ScanStart, ts[..i]);
    if IsOtherCardLine(ts[i], card) {
      OtherCardStops(card, st, ts[i]);
    } else {
      ActiveLineStops(card, st, ts[i]);
    }
    ScanStopped(card, st.(stopped := true), ts[i + 1..]);
    ScanAt(card, ts, i);
  }

  lemma {:induction false} TrimLinesPrefix(lines: seq<string>, i: nat)
    requires i <= |lines|
    ensures TrimLines(lines[..i]) == TrimLines(lines)[..i]
  {
  }

  lemma {:induction false} OtherCardStops(card: string, st: ScanState, t: string)
    requires !st.stopped && st.inCard && IsOtherCardLine(t, card)
    ensures ScanStep(card, st, t) == st.(stopped := true)
  {
  }

  lemma {:induction false} ActiveLineStops(card: string, st: ScanState, t: string)
    requires !st.stopped && st.inCard && st.inProfs
    requires StartsWith(t, "Active Profile:")
    ensures ScanStep(card, st, t) == st.(stopped := true)
  {
    assert t[0] == "Active Profile:"[0] == 'A';
    assert t != CardHeader(card) by { assert CardHeader(card)[0] == 'N'; }
    assert t != "Profiles:";
    assert !IsCardLine(t) by {
      if |t| >= 17 { assert t[..17][0] == 'A'; }
    }
  }

  /** Conversely, the name on a line of the card's profile section is
      returned: the section's "Profiles:" line at `k` follows the card's
      first header at `h`, nothing from `h` to `j` ends the block or the
      section, and no later line repeats the card's header. */
  lemma {:induction false} SectionProfilesAreListed(listing: seq<string>, card: string, h: nat, k: nat, j: nat)
    requires var ts := TrimLines(listing);
      && h < k < j < |ts| && ts[h] == CardHeader(card) && ts[k] == "Profiles:"
      && (forall m :: 0 <= m < h ==> ts[m] != CardHeader(card))
      && (forall m :: h < m <= j ==> !EndsBlockAt(ts, card, m) && !ActiveAt(ts, m))
      && ts[j] != "Profiles:" && ProfileName(ts[j]) != []
      && (forall m :: j < m < |ts| ==> ts[m] != CardHeader(card))
    ensures ProfileName(TrimLines(listing)[j]) in ProfilesListed(listing, card)
  {
    var ts := TrimLines(listing);
    forall m | 0 <= m < h || j < m < |ts| ensures !HeaderAt(ts, card, m) {
    }
    Collected(ts, card, h, k, j);
  }

  /** The same, over the trimmed lines. */
  lemma {:induction false} Collected(ts: seq<string>, card: string, h: int, k: int, j: int)
    requires SectionLine(ts, card, h, k, j)
    ensures ProfileName(ts[j]) in Scan(card, ScanStart, ts).profiles
  {
    CollectedFrom(ts, card, h, k, j, |ts|);
    assert ts[..|ts|] == ts;
  }

  /** The situation of the lemma above, on the trimmed lines `ts`. */
  ghost predicate SectionLine(ts: seq<string>, card: string, h: int, k: int, j: int) {
    && 0 <= h < k < j < |ts| && ts[h] == CardHeader(card) && ts[k] == "Profiles:"
    && (forall m :: 0 <= m < h ==> !HeaderAt(ts, card, m))
    && (forall m :: h < m <= j ==> !EndsBlockAt(ts, card, m) && !ActiveAt(ts, m))
    && ts[j] != "Profiles:" && ProfileName(ts[j]) != []
    && (forall m :: j < m < |ts| ==> !HeaderAt(ts, card, m))
  }

  /** Line `m` is the card's own header. */
  predicate HeaderAt(ts: seq<string>, card: string, m: int) {
    0 <= m < |ts| && ts[m] == CardHeader(card)
  }

  /** What the loop has done after the first `n` lines: nothing before the
      header, the open block and section up to line `j`, and the name on
      line `j` collected from then on. */
  ghost predicate Collecting(ts: seq<string>, card: string, h: int, k: int, j: int, n: int, st: ScanState) {
    && (n <= h ==> st == ScanStart)
    && (h < n <= j ==> !st.stopped && st.inCard && (k < n ==> st.inProfs))
    && (j < n ==> 0 <= j < |ts| && ProfileName(ts[j]) in st.profiles)
  }

  /** The loop's state after every prefix of the lines is as described. */
  lemma {:induction false} CollectedFrom(ts: seq<string>, card: string, h: int, k: int, j: int, n: nat)
    requires SectionLine(ts, card, h, k, j) && n <= |ts|
    ensures Collecting(ts, card, h, k, j, n, Scan(card, ScanStart, ts[..n]))
  {
    if n == 0 {
      assert ts[..0] == [];
    } else {
      CollectedFrom(ts, card, h, k, j, n - 1);
      ScanSnoc(card, ts, n - 1);
      CollectingStep(ts, card, h, k, j, n - 1, Scan(card, ScanStart, ts[..n - 1]));
    }
  }

  /** The scan of the first `n + 1` lines is one more step after the first `n`. */
  lemma {:induction false} ScanSnoc(card: string, ts: seq<string>, n: nat)
    requires n < |ts|
    ensures Scan(card, ScanStart, ts[..n + 1]) == ScanStep(card, Scan(card, ScanStart, ts[..n]), ts[n])
  {
    var st := Scan(card, ScanStart, ts[..n]);
    assert ts[..n + 1] == ts[..n] + [ts[n]];
    ScanAppend(card, ScanStart, ts[..n], [ts[n]]);
    assert Scan(card, st, [ts[n]]) == ScanStep(card, st, ts[n]);
  }

  /** One more line keeps the description. */
  lemma {:induction false} CollectingStep(ts: seq<string>, card: string, h: int, k: int, j: int, n: int, st: ScanState)
    requires SectionLine(ts, card, h, k, j) && 0 <= n < |ts| && Collecting(ts, card, h, k, j, n, st)
    ensures Collecting(ts, card, h, k, j, n + 1, ScanStep(card, st, ts[n]))
  {
    if n < h {
      assert !HeaderAt(ts, card, n);
      IdleStep(card, ts[n]);
    } else if n == h {
    } else if n <= j {
      assert !EndsBlockAt(ts, card, n) && !ActiveAt(ts, n);
      assert n == j ==> st.inProfs;
      SectionStep(card, st, ts[n]);
    } else {
      assert !HeaderAt(ts, card, n);
      NameStays(card, st, ts[n], ProfileName(ts[j]));
    }
  }

  /** Before the card's header, a line leaves the loop's state as it was. */
  lemma {:induction false} IdleStep(card: string, t: string)
    requires t != CardHeader(card)
    ensures ScanStep(card, ScanStart, t) == ScanStart
  {
  }

  /** A line other than the card's header never drops a collected name. */
  lemma {:induction false} NameStays(card: string, st: ScanState, t: string, p: string)
    requires p in st.profiles && t != CardHeader(card)
    ensures p in ScanStep(card, st, t).profiles
  {
  }

  /** A line inside the card's block that ends neither the block nor the
      profile section. */
  predicate InSectionLine(card: string, t: string) {
    t != CardHeader(card) && !IsCardLine(t) && !StartsWith(t, "Active Profile:")
  }

  /** One step on a line that neither ends the block nor the section. */
  lemma {:induction false} SectionStep(card: string, st: ScanState, t: string)
    requires !st.stopped && st.inCard && InSectionLine(card, t)
    ensures var next := ScanStep(card, st, t);
      && !next.stopped && next.inCard
      && (st.inProfs || t == "Profiles:" ==> next.inProfs)
      && (st.inProfs && t != "Profiles:" && ProfileName(t) != [] ==> ProfileName(t) in next.profiles)
  {
  }

  // ---------------------------------------------------------------------
  // Switching profiles

  /** A profile to try and what its success means. */
  datatype Candidate<T> = Candidate(profile: string, value: T)

  datatype SwitchError =
    | HfpUnavailable(card: string, profiles: seq<string>)
    | A2dpUnavailable(card: string, profiles: seq<string>)

  /** The profiles tried, in order, and the outcome of the switch. */
  datatype Switched<T> = Switched(attempts: seq<string>, outcome: Result<T, SwitchError>)

  /** The ordered fallback: try each candidate in turn, stop at the first
      whose switch succeeds, fail with `failure` when none does. */
  function TryInOrder<T>(plan: seq<Candidate<T>>, accepts: set<string>, failure: SwitchError): Switched<T> {
    if plan == [] then Switched([], Err(failure))
    else if plan[0].profile in accepts then Switched([plan[0].profile], Ok(plan[0].value))
    else
      var rest := TryInOrder(plan[1..], accepts, failure);
      Switched([plan[0].profile] + rest.attempts, rest.outcome)
  }

  /** The ordered fallback tries a prefix of the plan, in the plan's order;
      it succeeds exactly when some candidate's switch succeeds, and then
      with the first such candidate, every earlier one having failed; when
      it fails it has tried every candidate. */
  lemma {:induction false} TryInOrderSpec<T>(plan: seq<Candidate<T>>, accepts: set<string>, failure: SwitchError)
    ensures var r := TryInOrder(plan, accepts, failure);
      && |r.attempts| <= |plan|
      && (forall i :: 0 <= i < |r.attempts| ==> r.attempts[i] == plan[i].profile)
      && (r.outcome.Ok? <==> exists i :: 0 <= i < |plan| && plan[i].profile in accepts)
      && (r.outcome.Ok? ==>
            var n := |r.attempts|;
            && n > 0 && plan[n - 1].profile in accepts && r.outcome.value == plan[n - 1].value
            && forall i :: 0 <= i < n - 1 ==> plan[i].profile !in accepts)
      && (r.outcome.Err? ==> |r.attempts| == |plan| && r.outcome.error == failure)
  {
    TryInOrderTried(plan, accepts, failure);
    TryInOrderFirst(plan, accepts, failure);
  }

  /** The attempts are a prefix of the plan: all of it on failure, up to
      the accepted candidate on success. */
  lemma {:induction false} TryInOrderTried<T>(plan: seq<Candidate<T>>, accepts: set<string>, failure: SwitchError)
    ensures var r := TryInOrder(plan, accepts, failure);
      && |r.attempts| <= |plan|
      && (forall i :: 0 <= i < |r.attempts| ==> r.attempts[i] == plan[i].profile)
      && (r.outcome.Ok? ==>
            var n := |r.attempts|;
            n > 0 && plan[n - 1].profile in accepts && r.outcome.value == plan[n - 1].value)
      && (r.outcome.Err? ==> |r.attempts| == |plan| && r.outcome.error == failure)
    decreases |plan|
  {
    if plan != [] && plan[0].profile !in accepts {
      TryInOrderTried(plan[1..], accepts, failure);
      var rest := TryInOrder(plan[1..], accepts, failure);
      var r := TryInOrder(plan, accepts, failure);
      forall i | 1 <= i < |r.attempts| ensures r.attempts[i] == plan[i].profile {
        assert r.attempts[i] == rest.attempts[i - 1] && plan[i] == plan[1..][i - 1];
      }
      if r.outcome.Ok? {
        assert plan[|r.attempts| - 1] == plan[1..][|rest.attempts| - 1];
      }
    }
  }

  /** The fallback succeeds exactly when some candidate is accepted, and
      then every candidate before the accepted one was refused. */
  lemma {:induction false} TryInOrderFirst<T>(plan: seq<Candidate<T>>, accepts: set<string>, failure: SwitchError)
    ensures var r := TryInOrder(plan, accepts, failure);
      && (r.outcome.Ok? <==> exists i :: 0 <= i < |plan| && plan[i].profile in accepts)
      && (r.outcome.Ok? ==> forall i :: 0 <= i < |plan| && i < |r.attempts| - 1 ==> plan[i].profile !in accepts)
    decreases |plan|
  {
    if plan != [] && plan[0].profile !in accepts {
      TryInOrderFirst(plan[1..], accepts, failure);
      var rest := TryInOrder(plan[1..], accepts, failure);
      var r := TryInOrder(plan, accepts, failure);
      if exists i :: 0 <= i < |plan| && plan[i].profile in accepts {
        var i :| 0 <= i < |plan| && plan[i].profile in accepts;
        assert plan[1..][i - 1] == plan[i];
      }
      if r.outcome.Ok? {
        forall i | 0 < i < |plan| && i < |r.attempts| - 1 ensures plan[i].profile !in accepts {
          assert plan[i] == plan[1..][i - 1];
        }
      }
    }
  }

  /** One step of the ordered fallback. */
  lemma {:induction false} TryInOrderCons<T>(c: Candidate<T>, rest: seq<Candidate<T>>, accepts: set<string>, failure: SwitchError)
    ensures TryInOrder([c] + rest, accepts, failure)
         == if c.profile in accepts then Switched([c.profile], Ok(c.value))
            else Switched([c.profile] + TryInOrder(rest, accepts, failure).attempts,
                          TryInOrder(rest, accepts, failure).outcome)
  {
    assert ([c] + rest)[0] == c && ([c] + rest)[1..] == rest;
  }

  const HeadsetPrefix := "headset-head-unit"
  const PipeWireCvsd := "headset-head-unit-cvsd"
  const AudioGateway := "audio-gateway"

  predicate HasHeadset(profiles: seq<string>) {
    exists p :: p in profiles && StartsWith(p, HeadsetPrefix)
  }

  /** The mSBC profile name: PipeWire's when the card lists the explicit
      CVSD profile, PulseAudio's otherwise. */
  function MsbcProfile(profiles: seq<string>): string {
    if PipeWireCvsd in profiles then "headset-head-unit" else "headset-head-unit-msbc"
  }

  /** The CVSD profile name, by the same rule. */
  function CvsdProfile(profiles: seq<string>): string {
    if PipeWireCvsd in profiles then PipeWireCvsd else "headset-head-unit"
  }

  /** The HFP fallback order: mSBC then CVSD when a headset profile is
      listed, then the audio gateway when it is listed. */
  function HfpPlan(profiles: seq<string>): seq<Candidate<HfpCodec>> {
    (if HasHeadset(profiles)
     then [Candidate(MsbcProfile(profiles), MSbc), Candidate(CvsdProfile(profiles), Cvsd)]
     else [])
    + (if AudioGateway in profiles then [Candidate(AudioGateway, PhoneGateway)] else [])
  }

  /** `switch_to_hfp`: read the card's profiles, pick the naming scheme,
      then try mSBC, CVSD and the audio gateway in that order, returning at
      the first switch that succeeds. It is the ordered fallback over the
      HFP plan. */
  method SwitchToHfp(card: string, listing: seq<string>, accepts: set<string>) returns (r: Switched<HfpCodec>)
    ensures var profiles := ProfilesListed(listing, card);
      r == TryInOrder(HfpPlan(profiles), accepts, HfpUnavailable(card, profiles))
  {
    var profiles := AvailableProfiles(listing, card);
    var hasHeadset := HasHeadset(profiles);
    var hasGateway := AudioGateway in profiles;
    HfpFallback(card, profiles, accepts);
    var attempts := [];
    if hasHeadset {
      var msbc, cvsd := MsbcProfile(profiles), CvsdProfile(profiles);
      if msbc in accepts {
        return Switched([msbc], Ok(MSbc));
      }
      if cvsd in accepts {
        return Switched([msbc, cvsd], Ok(Cvsd));
      }
      attempts := [msbc, cvsd];
    }
    if hasGateway {
      attempts := attempts + [AudioGateway];
      if AudioGateway in accepts {
        return Switched(attempts, Ok(PhoneGateway));
      }
    }
    return Switched(attempts, Err(HfpUnavailable(card, profiles)));
  }

  /** The ordered fallback over the HFP plan, case by case. */
  lemma {:induction false} HfpFallback(card: string, profiles: seq<string>, accepts: set<string>)
    ensures var m := MsbcProfile(profiles);
      var c := CvsdProfile(profiles);
      var tried := if HasHeadset(profiles) then [m, c] else [];
      var gateway := if AudioGateway in profiles then [AudioGateway] else [];
      TryInOrder(HfpPlan(profiles), accepts, HfpUnavailable(card, profiles))
      == if HasHeadset(profiles) && m in accepts then Switched([m], Ok(MSbc))
         else if HasHeadset(profiles) && c in accepts then Switched([m, c], Ok(Cvsd))
         else if AudioGateway in profiles && AudioGateway in accepts
         then Switched(tried + [AudioGateway], Ok(PhoneGateway))
         else Switched(tried + gateway, Err(HfpUnavailable(card, profiles)))
  {
    var failure := HfpUnavailable(card, profiles);
    var m := Candidate(MsbcProfile(profiles), MSbc);
    var c := Candidate(CvsdProfile(profiles), Cvsd);
    var gateway: seq<Candidate<HfpCodec>> :=
      if AudioGateway in profiles then [Candidate(AudioGateway, PhoneGateway)] else [];
    if AudioGateway in profiles {
      TryInOrderCons(Candidate(AudioGateway, PhoneGateway), [], accepts, failure);
      assert [Candidate(AudioGateway, PhoneGateway)] + [] == gateway;
    }
    if HasHeadset(profiles) {
      assert HfpPlan(profiles) == [m] + ([c] + gateway);
      TryInOrderCons(m, [c] + gateway, accepts, failure);
      TryInOrderCons(c, gateway, accepts, failure);
    } else {
      assert HfpPlan(profiles) == [] + gateway == gateway;
    }
  }

  /** Which codec the HFP switch settles on. mSBC wins when a headset
      profile is listed and its switch succeeds; CVSD only after mSBC
      failed; the audio gateway only when it is listed and no headset
      switch succeeded; the switch fails exactly when every attempt
      failed. */
  lemma {:induction false} HfpChoice(card: string, profiles: seq<string>, accepts: set<string>)
    ensures var r := TryInOrder(HfpPlan(profiles), accepts, HfpUnavailable(card, profiles));
      var headsetOk := HasHeadset(profiles)
        && (MsbcProfile(profiles) in accepts || CvsdProfile(profiles) in accepts);
      && (r.outcome == Ok(MSbc) <==> HasHeadset(profiles) && MsbcProfile(profiles) in accepts)
      && (r.outcome == Ok(Cvsd) <==>
            HasHeadset(profiles) && MsbcProfile(profiles) !in accepts && CvsdProfile(profiles) in accepts)
      && (r.outcome == Ok(PhoneGateway) <==>
            !headsetOk && AudioGateway in profiles && AudioGateway in accepts)
      && (r.outcome.Err? <==> forall a :: a in r.attempts ==> a !in accepts)
      && (r.outcome.Err? ==> r.outcome.error == HfpUnavailable(card, profiles))
  {
    HfpFallback(card, profiles, accepts);
  }

  /** Which profiles the HFP switch tries. The first attempt is mSBC
      whenever a headset profile is listed, under PipeWire's name exactly
      when "headset-head-unit-cvsd" is listed; a headset profile is tried
      only when some listed profile starts with "headset-head-unit", the
      gateway only when it is listed. */
  lemma {:induction false} HfpAttempts(card: string, profiles: seq<string>, accepts: set<string>)
    ensures var r := TryInOrder(HfpPlan(profiles), accepts, HfpUnavailable(card, profiles));
      && (HasHeadset(profiles) ==> r.attempts != [] && r.attempts[0] == MsbcProfile(profiles))
      && (MsbcProfile(profiles) == "headset-head-unit" <==> PipeWireCvsd in profiles)
      && (forall a :: a in r.attempts ==>
            (HasHeadset(profiles) && StartsWith(a, HeadsetPrefix))
            || (a == AudioGateway && AudioGateway in profiles))
  {
    HfpFallback(card, profiles, accepts);
    assert "headset-head-unit-msbc" != "headset-head-unit" by {
      assert |"headset-head-unit-msbc"| != |"headset-head-unit"|;
    }
    assert StartsWith(MsbcProfile(profiles), HeadsetPrefix);
    assert StartsWith(CvsdProfile(profiles), HeadsetPrefix);
  }

  const A2dpCandidates := ["a2dp-sink", "a2dp-sink-aac", "a2dp-sink-sbc_xq", "a2dp-sink-sbc"]

  /** The A2DP candidates worth trying: every candidate when the card lists
      no profile, otherwise the listed ones. */
  function A2dpPlan(candidates: seq<string>, profiles: seq<string>): seq<Candidate<()>> {
    if candidates == [] then []
    else
      (if profiles == [] || candidates[0] in profiles then [Candidate(candidates[0], ())] else [])
      + A2dpPlan(candidates[1..], profiles)
  }

  function Profiles<T>(plan: seq<Candidate<T>>): (r: seq<string>)
    ensures |r| == |plan| && forall i :: 0 <= i < |plan| ==> r[i] == plan[i].profile
  {
    if plan == [] then [] else [plan[0].profile] + Profiles(plan[1..])
  }

  /** `a` is `b` with some elements left out. */
  predicate Subsequence(a: seq<string>, b: seq<string>) {
    if a == [] then true
    else if b == [] then false
    else if a[0] == b[0] then Subsequence(a[1..], b[1..])
    else Subsequence(a, b[1..])
  }

  /** The A2DP plan keeps exactly the candidates that are listed (all of
      them when nothing is listed), in the candidates' order. */
  lemma {:induction false} A2dpPlanSpec(candidates: seq<string>, profiles: seq<string>)
    ensures var r := A2dpPlan(candidates, profiles);
      && (forall i :: 0 <= i < |r| ==>
            r[i].profile in candidates && (profiles == [] || r[i].profile in profiles))
      && (forall c :: c in candidates && (profiles == [] || c in profiles) ==>
            exists i :: 0 <= i < |r| && r[i].profile == c)
      && Subsequence(Profiles(r), candidates)
      && (profiles == [] ==> Profiles(r) == candidates)
  {
    A2dpPlanSound(candidates, profiles);
    A2dpPlanComplete(candidates, profiles);
    A2dpPlanOrdered(candidates, profiles);
  }

  lemma {:induction false} A2dpPlanCons(candidates: seq<string>, profiles: seq<string>)
    requires candidates != []
    ensures var rest := A2dpPlan(candidates[1..], profiles);
      A2dpPlan(candidates, profiles)
      == if profiles == [] || candidates[0] in profiles then [Candidate(candidates[0], ())] + rest else rest
  {
    if !(profiles == [] || candidates[0] in profiles) {
      assert [] + A2dpPlan(candidates[1..], profiles) == A2dpPlan(candidates[1..], profiles);
    }
  }

  /** Every candidate of the plan is a listed candidate. */
  lemma {:induction false} A2dpPlanSound(candidates: seq<string>, profiles: seq<string>)
    ensures var r := A2dpPlan(candidates, profiles);
      forall i :: 0 <= i < |r| ==>
        r[i].profile in candidates && (profiles == [] || r[i].profile in profiles)
    decreases |candidates|
  {
    if candidates != [] {
      A2dpPlanSound(candidates[1..], profiles);
      A2dpPlanCons(candidates, profiles);
      var rest := A2dpPlan(candidates[1..], profiles);
      var r := A2dpPlan(candidates, profiles);
      if profiles == [] || candidates[0] in profiles {
        forall i | 0 <= i < |r|
          ensures r[i].profile in candidates && (profiles == [] || r[i].profile in profiles)
        {
          if i > 0 {
            assert r[i] == rest[i - 1];
            assert rest[i - 1].profile in candidates[1..];
          }
        }
      } else {
        forall i | 0 <= i < |r|
          ensures r[i].profile in candidates && (profiles == [] || r[i].profile in profiles)
        {
          assert r[i].profile in candidates[1..];
        }
      }
    }
  }

  /** Every listed candidate is in the plan. */
  lemma {:induction false} A2dpPlanComplete(candidates: seq<string>, profiles: seq<string>)
    ensures var r := A2dpPlan(candidates, profiles);
      forall c :: c in candidates && (profiles == [] || c in profiles) ==>
        exists i :: 0 <= i < |r| && r[i].profile == c
    decreases |candidates|
  {
    if candidates != [] {
      A2dpPlanComplete(candidates[1..], profiles);
      A2dpPlanCons(candidates, profiles);
      var rest := A2dpPlan(candidates[1..], profiles);
      var r := A2dpPlan(candidates, profiles);
      forall c | c in candidates && (profiles == [] || c in profiles)
        ensures exists i :: 0 <= i < |r| && r[i].profile == c
      {
        if c == candidates[0] {
          assert r[0].profile == c;
        } else {
          assert c in candidates[1..];
          var i :| 0 <= i < |rest| && rest[i].profile == c;
          if profiles == [] || candidates[0] in profiles {
            assert r[i + 1] == rest[i];
          } else {
            assert r[i] == rest[i];
          }
        }
      }
    }
  }

  /** The plan keeps the candidates' order, and is all of them when
      nothing is listed. */
  lemma {:induction false} A2dpPlanOrdered(candidates: seq<string>, profiles: seq<string>)
    ensures var r := A2dpPlan(candidates, profiles);
      && Subsequence(Profiles(r), candidates)
      && (profiles == [] ==> Profiles(r) == candidates)
    decreases |candidates|
  {
    if candidates != [] {
      A2dpPlanOrdered(candidates[1..], profiles);
      A2dpPlanCons(candidates, profiles);
      var rest := A2dpPlan(candidates[1..], profiles);
      var r := A2dpPlan(candidates, profiles);
      if profiles == [] || candidates[0] in profiles {
        assert r[0].profile == candidates[0] && r[1..] == rest;
        assert Profiles(r) == [candidates[0]] + Profiles(rest);
        assert Profiles(r)[1..] == Profiles(rest);
        if profiles == [] {
          assert candidates == [candidates[0]] + candidates[1..];
        }
      } else {
        SubsequenceSkip(Profiles(rest), candidates);
      }
    }
  }

  /** Dropping the head of the larger sequence keeps a subsequence. */
  lemma {:induction false} SubsequenceSkip(a: seq<string>, b: seq<string>)
    requires b != [] && Subsequence(a, b[1..])
    ensures Subsequence(a, b)
    decreases |a| + |b|
  {
    if a != [] && a[0] == b[0] {
      SubsequenceTail(a, b[1..]);
    }
  }

  /** A subsequence's tail is still a subsequence. */
  lemma {:induction false} SubsequenceTail(a: seq<string>, b: seq<string>)
    requires a != [] && Subsequence(a, b)
    ensures Subsequence(a[1..], b)
    decreases |a| + |b|
  {
    if b != [] {
      if a[0] != b[0] {
        SubsequenceTail(a, b[1..]);
      }
      SubsequenceSkip(a[1..], b);
    }
  }

  /** `switch_to_a2dp`: read the card's profiles, then run the candidate
      loop over them. */
  method SwitchToA2dp(card: string, listing: seq<string>, accepts: set<string>) returns (r: Switched<()>)
    ensures var profiles := ProfilesListed(listing, card);
      r == TryInOrder(A2dpPlan(A2dpCandidates, profiles), accepts, A2dpUnavailable(card, profiles))
  {
    var profiles := AvailableProfiles(listing, card);
    r := TryListed(A2dpCandidates, profiles, accepts, A2dpUnavailable(card, profiles));
  }

  /** The candidate loop of `switch_to_a2dp`, with its early return: each
      candidate that is listed (any, when nothing is listed) is tried in
      turn until one switch succeeds. */
  method TryListed(candidates: seq<string>, profiles: seq<string>, accepts: set<string>, failure: SwitchError)
    returns (r: Switched<()>)
    ensures r == TryInOrder(A2dpPlan(candidates, profiles), accepts, failure)
  {
    var attempts := [];
    for i := 0 to |candidates|
      invariant After(attempts, TryInOrder(A2dpPlan(candidates[i..], profiles), accepts, failure))
             == TryInOrder(A2dpPlan(candidates, profiles), accepts, failure)
    {
      var p := candidates[i];
      TryListedAt(candidates, i, profiles, accepts, failure, attempts);
      if profiles == [] || p in profiles {
        attempts := attempts + [p];
        if p in accepts {
          return Switched(attempts, Ok(()));
        }
      }
    }
    TryListedEnd(candidates, profiles, accepts, failure, attempts);
    return Switched(attempts, Err(failure));
  }

  /** The switch made of the attempts `done` already failed, followed by
      `rest`. */
  function After<T>(done: seq<string>, rest: Switched<T>): Switched<T> {
    Switched(done + rest.attempts, rest.outcome)
  }

  /** One iteration of the candidate loop, on the fallback it models. */
  lemma {:induction false} TryListedAt(candidates: seq<string>, i: nat, profiles: seq<string>,
                                       accepts: set<string>, failure: SwitchError, done: seq<string>)
    requires i < |candidates|
    ensures var p := candidates[i];
      var here := After(done, TryInOrder(A2dpPlan(candidates[i..], profiles), accepts, failure));
      var next := TryInOrder(A2dpPlan(candidates[i + 1..], profiles), accepts, failure);
      if profiles == [] || p in profiles then
        if p in accepts then here == Switched(done + [p], Ok(()))
        else here == After(done + [p], next)
      else here == After(done, next)
  {
    var p := candidates[i];
    var later := A2dpPlan(candidates[i + 1..], profiles);
    var next := TryInOrder(later, accepts, failure);
    assert candidates[i..][0] == p && candidates[i..][1..] == candidates[i + 1..];
    if profiles == [] || p in profiles {
      assert A2dpPlan(candidates[i..], profiles) == [Candidate(p, ())] + later;
      TryInOrderCons(Candidate(p, ()), later, accepts, failure);
      assert done + ([p] + next.attempts) == (done + [p]) + next.attempts;
      assert done + [p] + [] == done + [p];
    } else {
      assert A2dpPlan(candidates[i..], profiles) == [] + later == later;
    }
  }

  lemma {:induction false} TryListedEnd(candidates: seq<string>, profiles: seq<string>,
                                        accepts: set<string>, failure: SwitchError, done: seq<string>)
    ensures After(done, TryInOrder(A2dpPlan(candidates[|candidates|..], profiles), accepts, failure))
         == Switched(done, Err(failure))
  {
    assert candidates[|candidates|..] == [];
    assert done + [] == done;
  }

  /** What `switch_to_a2dp` settles on: the first candidate, in the fixed
      order a2dp-sink, -aac, -sbc_xq, -sbc, that is listed (any, when
      nothing is listed) and whose switch succeeds; it fails exactly when
      no such candidate exists. Only listed candidates are tried, all of
      them in order when nothing is listed. */
  lemma {:induction false} A2dpChoice(card: string, profiles: seq<string>, accepts: set<string>)
    ensures var r := TryInOrder(A2dpPlan(A2dpCandidates, profiles), accepts, A2dpUnavailable(card, profiles));
      && (r.outcome.Ok? <==>
            exists c :: c in A2dpCandidates && (profiles == [] || c in profiles) && c in accepts)
      && (forall a :: a in r.attempts ==> a in A2dpCandidates && (profiles == [] || a in profiles))
      && Subsequence(r.attempts, A2dpCandidates)
      && (profiles == [] ==> |r.attempts| <= 4 && r.attempts == A2dpCandidates[..|r.attempts|])
  {
    var r := TryInOrder(A2dpPlan(A2dpCandidates, profiles), accepts, A2dpUnavailable(card, profiles));
    var plan := A2dpPlan(A2dpCandidates, profiles);
    TryInOrderSpec(plan, accepts, A2dpUnavailable(card, profiles));
    A2dpPlanSpec(A2dpCandidates, profiles);
    assert r.attempts == Profiles(plan)[..|r.attempts|];
    SubsequenceOfPrefix(Profiles(plan), |r.attempts|, A2dpCandidates);
    forall a | a in r.attempts ensures a in A2dpCandidates && (profiles == [] || a in profiles) {
      var i :| 0 <= i < |r.attempts| && r.attempts[i] == a;
      assert a == plan[i].profile;
    }
    if exists c :: c in A2dpCandidates && (profiles == [] || c in profiles) && c in accepts {
      var c :| c in A2dpCandidates && (profiles == [] || c in profiles) && c in accepts;
      var i :| 0 <= i < |plan| && plan[i].profile == c;
    }
  }

  lemma {:induction false} SubsequenceOfPrefix(a: seq<string>, n: nat, b: seq<string>)
    requires n <= |a| && Subsequence(a, b)
    ensures Subsequence(a[..n], b)
    decreases |b|
  {
    if n == 0 || a == [] {
    } else if b == [] {
    } else if a[0] == b[0] {
      assert a[..n][1..] == a[1..][..n - 1];
      SubsequenceOfPrefix(a[1..], n - 1, b[1..]);
    } else {
      SubsequenceOfPrefix(a, n, b[1..]);
    }
  }

  // ---------------------------------------------------------------------
  // RUNNING test

  /** `source_is_running` / `sink_is_running` over the lines of
      `pactl list sources short` (or `sinks short`): some line mentions the
      node and does not say SUSPENDED. */
  function IsRunning(listing: seq<string>, node: string): (r: bool)
    ensures r <==> exists i :: (0 <= i < |listing|
      && Contains(listing[i], node) && !Contains(listing[i], "SUSPENDED"))
  {
    if listing == [] then false
    else
      var r := (Contains(listing[0], node) && !Contains(listing[0], "SUSPENDED"))
               || IsRunning(listing[1..], node);
      assert forall i :: 1 <= i < |listing| ==> listing[i] == listing[1..][i - 1];
      r
  }
}
