/** `list_bt_cards`: the Bluetooth cards PipeWire/PulseAudio knows of,
    built in three passes over command output: the rows of
    `pactl list cards short`, the "Active Profile:" lines of
    `pactl list cards`, and the "Alias:"/"Name:" lines of
    `bluetoothctl info <mac>`. Each output is given as its lines;
    `bluetoothctl info` is given as a function from the MAC to its lines. */
module BluetoothCards {
  import opened Basics
  import opened Text
  import opened Bluetooth

  /** `BtCard` */
  datatype BtCard = BtCard(name: string, mac: string, displayName: Option<string>, activeProfile: Option<string>)

  // ---------------------------------------------------------------------
  // Pass 1: the rows of `pactl list cards short`

  /** The second tab-separated column of `line`, if it has one (the second
      piece of `splitn(3, '\t')`). */
  function SecondColumn(line: string): (r: Option<string>)
    ensures r.Some? <==> '\t' in line
    ensures r.Some? ==> '\t' !in r.value
  {
    var first := BeforeChar(line, '\t');
    if |first| == |line| then None
    else Some(BeforeChar(line[|first| + 1..], '\t'))
  }

  /** One row of the short listing: the card it names, if its first
      column is a `u32` index and its second a `bluez_card.` name. */
  function ParseShortRow(line: string): (r: Option<BtCard>)
    ensures r.Some? ==> '\t' in line && ParsesAsU32(Trim(BeforeChar(line, '\t')))
    ensures r.Some? ==> StartsWith(r.value.name, CardPrefix) && '\t' !in r.value.name
    ensures r.Some? ==> r.value.mac == CardNameToMac(r.value.name)
    ensures r.Some? ==> r.value.displayName.None? && r.value.activeProfile.None?
    ensures r.Some? ==> SecondColumn(line).Some? && r.value.name == Trim(SecondColumn(line).value)
  {
    if !ParsesAsU32(Trim(BeforeChar(line, '\t'))) then None
    else match SecondColumn(line)
      case None => None
      case Some(col) =>
        var name := Trim(col);
        TrimKeepsOnly(col, '\t');
        if !StartsWith(name, CardPrefix) then None
        else Some(BtCard(name, CardNameToMac(name), None, None))
  }

  /** `filter_map`: the values `f` gives, in order, skipping `None`s. */
  function FilterMap<A, B>(xs: seq<A>, f: A -> Option<B>): (r: seq<B>)
    ensures |r| <= |xs|
  {
    if xs == [] then []
    else
      var rest := FilterMap(xs[1..], f);
      match f(xs[0])
      case Some(y) => [y] + rest
      case None => rest
  }

  /** `filter_map` keeps exactly the values `f` gives. */
  lemma {:induction false} FilterMapMembers<A, B>(xs: seq<A>, f: A -> Option<B>, y: B)
    ensures y in FilterMap(xs, f) <==> exists i :: 0 <= i < |xs| && f(xs[i]) == Some(y)
  {
    if xs != [] {
      FilterMapMembers(xs[1..], f, y);
      if exists i :: 0 <= i < |xs| && f(xs[i]) == Some(y) {
        var i :| 0 <= i < |xs| && f(xs[i]) == Some(y);
        if i > 0 {
          assert xs[1..][i - 1] == xs[i];
        }
      }
      if exists i :: 0 <= i < |xs| - 1 && f(xs[1..][i]) == Some(y) {
        var i :| 0 <= i < |xs| - 1 && f(xs[1..][i]) == Some(y);
        assert xs[i + 1] == xs[1..][i];
      }
    }
  }

  /** `filter_map` works element by element. */
  lemma {:induction false} FilterMapAppend<A, B>(xs: seq<A>, ys: seq<A>, f: A -> Option<B>)
    ensures FilterMap(xs + ys, f) == FilterMap(xs, f) + FilterMap(ys, f)
    decreases |xs|
  {
    if xs == [] {
      assert xs + ys == ys;
    } else {
      assert (xs + ys)[0] == xs[0] && (xs + ys)[1..] == xs[1..] + ys;
      FilterMapAppend(xs[1..], ys, f);
    }
  }

  /** The cards of the short listing, in row order. */
  function ParseShortListing(lines: seq<string>): (r: seq<BtCard>)
    ensures |r| <= |lines|
  {
    FilterMap(lines, ParseShortRow)
  }

  /** The listing keeps exactly the cards its rows parse to: a row is kept
      when its first column is a `u32` and its second a `bluez_card.`
      name. */
  lemma {:induction false} ParseShortListingRows(lines: seq<string>, c: BtCard)
    ensures c in ParseShortListing(lines) <==> exists i :: 0 <= i < |lines| && ParseShortRow(lines[i]) == Some(c)
  {
    FilterMapMembers(lines, ParseShortRow, c);
  }

  /** Every card of the listing has a `bluez_card.` name, the MAC derived
      from it, and neither a display name nor an active profile yet. */
  lemma {:induction false} ParseShortListingCards(lines: seq<string>)
    ensures forall c :: c in ParseShortListing(lines) ==>
      StartsWith(c.name, CardPrefix) && c.mac == CardNameToMac(c.name)
      && c.displayName.None? && c.activeProfile.None?
  {
    forall c | c in ParseShortListing(lines)
      ensures StartsWith(c.name, CardPrefix) && c.mac == CardNameToMac(c.name)
      ensures c.displayName.None? && c.activeProfile.None?
    {
      ParseShortListingRows(lines, c);
      var i :| 0 <= i < |lines| && ParseShortRow(lines[i]) == Some(c);
    }
  }

  /** The listing is parsed row by row: rows of a concatenation give the
      cards of each part, in order. */
  lemma {:induction false} ParseShortListingAppend(a: seq<string>, b: seq<string>)
    ensures ParseShortListing(a + b) == ParseShortListing(a) + ParseShortListing(b)
  {
    FilterMapAppend(a, b, ParseShortRow);
  }

  /** A row as `pactl` writes it, an index and a card name made from a
      MAC (more columns may follow), gives back that card and the MAC in
      colon form. */
  lemma {:induction false} ShortRowRoundTrip(index: nat, mac: string, more: string)
    requires index <= U32Max
    requires forall i :: 0 <= i < |mac| ==> !IsWhitespace(mac[i]) && mac[i] != '.'
    requires more == [] || more[0] == '\t'
    ensures ParseShortRow(DecimalText(index) + "\t" + MacToCardName(mac) + more)
         == Some(BtCard(MacToCardName(mac), ReplaceChar(mac, '_', ':'), None, None))
  {
    var digits := DecimalText(index);
    var name := MacToCardName(mac);
    var line := digits + "\t" + (name + more);
    assert digits + "\t" + name + more == line;
    IndexColumn(index, name + more);
    NoTabInCardName(mac);
    NameColumn(digits, name, more);
    CardNameTrimmed(mac);
    assert '.' !in mac by {
      forall i | 0 <= i < |mac| ensures mac[i] != '.' { }
    }
    MacCardNameRoundTrip(mac);
    ParseShortRowOf(line, name);
  }

  /** A row whose first column is a `u32` and whose second column, trimmed,
      starts with "bluez_card." is kept, as the card of that name. */
  lemma {:induction false} ParseShortRowOf(line: string, col: string)
    requires ParsesAsU32(Trim(BeforeChar(line, '\t'))) && SecondColumn(line) == Some(col)
    requires StartsWith(Trim(col), CardPrefix)
    ensures ParseShortRow(line) == Some(BtCard(Trim(col), CardNameToMac(Trim(col)), None, None))
  {
  }

  /** A row is kept exactly when its first column is a `u32` and its
      second column, trimmed, starts with "bluez_card.". */
  lemma {:induction false} ParseShortRowKept(line: string)
    ensures ParseShortRow(line).Some? <==>
      && ParsesAsU32(Trim(BeforeChar(line, '\t')))
      && SecondColumn(line).Some? && StartsWith(Trim(SecondColumn(line).value), CardPrefix)
  {
    if ParsesAsU32(Trim(BeforeChar(line, '\t'))) && SecondColumn(line).Some?
       && StartsWith(Trim(SecondColumn(line).value), CardPrefix) {
      ParseShortRowOf(line, SecondColumn(line).value);
    }
  }

  lemma {:induction false} NoTabInCardName(mac: string)
    requires forall i :: 0 <= i < |mac| ==> !IsWhitespace(mac[i])
    ensures '\t' !in MacToCardName(mac)
  {
    var name := MacToCardName(mac);
    forall k | 0 <= k < |name| ensures name[k] != '\t' {
      if k >= |CardPrefix| {
        assert !IsWhitespace(mac[k - |CardPrefix|]);
      } else {
        assert name[k] == CardPrefix[k];
      }
    }
  }

  lemma {:induction false} IndexColumn(index: nat, rest: string)
    requires index <= U32Max
    ensures var line := DecimalText(index) + "\t" + rest;
      BeforeChar(line, '\t') == DecimalText(index)
      && ParsesAsU32(Trim(BeforeChar(line, '\t')))
  {
    var digits := DecimalText(index);
    var line := digits + "\t" + rest;
    assert line[..|digits|] == digits;
    assert '\t' !in digits by {
      forall i | 0 <= i < |digits| ensures digits[i] != '\t' {
        assert IsAsciiDigit(digits[i]);
      }
    }
    BeforeCharAt(line, '\t', |digits|);
    assert !IsWhitespace(digits[0]) && !IsWhitespace(digits[|digits| - 1]) by {
      assert IsAsciiDigit(digits[0]) && IsAsciiDigit(digits[|digits| - 1]);
    }
    assert digits[0] != '+' by { assert IsAsciiDigit(digits[0]); }
  }

  lemma {:induction false} NameColumn(first: string, name: string, more: string)
    requires '\t' !in first && '\t' !in name && (more == [] || more[0] == '\t')
    ensures SecondColumn(first + "\t" + (name + more)) == Some(name)
  {
    var line := first + "\t" + (name + more);
    assert line[..|first|] == first;
    BeforeCharAt(line, '\t', |first|);
    var rest := line[|first| + 1..];
    assert rest == name + more;
    assert rest[..|name|] == name;
    BeforeCharAt(rest, '\t', |name|);
  }

  /** A card name built from a MAC without whitespace is already trimmed. */
  lemma {:induction false} CardNameTrimmed(mac: string)
    requires forall i :: 0 <= i < |mac| ==> !IsWhitespace(mac[i])
    ensures Trim(MacToCardName(mac)) == MacToCardName(mac)
  {
    var name := MacToCardName(mac);
    assert name[0] == 'b';
    if mac == [] {
      assert name[|name| - 1] == '.';
    } else {
      assert name[|name| - 1] == if mac[|mac| - 1] == ':' then '_' else mac[|mac| - 1];
    }
  }

  // ---------------------------------------------------------------------
  // Pass 2: active profiles from `pactl list cards`

  /** The value of a trimmed "Name:" line, trimmed. */
  function NameValue(t: string): (r: Option<string>)
    ensures r.Some? <==> StartsWith(t, "Name:")
    ensures r.Some? ==> r.value == Trim(t[5..])
  {
    match StripPrefix(t, "Name:")
    case Some(rest) => Some(Trim(rest))
    case None => None
  }

  /** The value of a trimmed "Active Profile:" line, trimmed. */
  function ActiveValue(t: string): (r: Option<string>)
    ensures r.Some? <==> StartsWith(t, "Active Profile:")
    ensures r.Some? ==> r.value == Trim(t[15..])
  {
    match StripPrefix(t, "Active Profile:")
    case Some(rest) => Some(Trim(rest))
    case None => None
  }

  /** `cards.iter().find(|c| c.name == name)`, as an index. */
  function FirstNamed(cards: seq<BtCard>, name: string): (r: Option<nat>)
    ensures r.Some? ==> r.value < |cards| && cards[r.value].name == name
    ensures forall i :: 0 <= i < |cards| && (r.None? || i < r.value) ==> cards[i].name != name
  {
    if cards == [] then None
    else if cards[0].name == name then Some(0)
    else match FirstNamed(cards[1..], name)
      case Some(i) => Some(i + 1)
      case None => None
  }

  predicate SameNames(a: seq<BtCard>, b: seq<BtCard>) {
    |a| == |b| && forall i :: 0 <= i < |a| ==> a[i].name == b[i].name
  }

  /** `find` looks only at names. */
  lemma {:induction false} FirstNamedByNames(a: seq<BtCard>, b: seq<BtCard>, name: string)
    requires SameNames(a, b)
    ensures FirstNamed(a, name) == FirstNamed(b, name)
  {
  }

  /** The state of the pass: the cards and `current_card`. */
  datatype ActiveScan = ActiveScan(cards: seq<BtCard>, current: Option<string>)

  /** Sets the active profile of the first card named `name`, if any. */
  function SetActive(cards: seq<BtCard>, name: string, profile: string): seq<BtCard> {
    match FirstNamed(cards, name)
    case Some(i) => cards[i := cards[i].(activeProfile := Some(profile))]
    case None => cards
  }

  /** One iteration of the pass, on the trimmed line `t`. */
  function ActiveStep(s: ActiveScan, t: string): ActiveScan {
    var current := if NameValue(t).Some? then NameValue(t) else s.current;
    if ActiveValue(t).Some? && current.Some?
    then ActiveScan(SetActive(s.cards, current.value, ActiveValue(t).value), current)
    else ActiveScan(s.cards, current)
  }

  /** The pass over the trimmed lines `ts`, starting with no current card. */
  function ActivePass(cards: seq<BtCard>, ts: seq<string>): ActiveScan {
    if ts == [] then ActiveScan(cards, None)
    else ActiveStep(ActivePass(cards, ts[..|ts| - 1]), ts[|ts| - 1])
  }

  /** The pass over the lines of `pactl list cards`. */
  method AttachActiveProfiles(cards: seq<BtCard>, verbose: seq<string>) returns (out: seq<BtCard>)
    ensures out == ActivePass(cards, TrimLines(verbose)).cards
  {
    ghost var ts := TrimLines(verbose);
    out := cards;
    var current: Option<string> := None;
    for i := 0 to |verbose|
      invariant ActiveScan(out, current) == ActivePass(cards, ts[..i])
    {
      ActivePassSnoc(cards, ts, i);
      out, current := ActiveLine(out, current, Trim(verbose[i]));
    }
    assert ts[..|verbose|] == ts;
  }

  lemma {:induction false} ActivePassSnoc(cards: seq<BtCard>, ts: seq<string>, i: nat)
    requires i < |ts|
    ensures ActivePass(cards, ts[..i + 1]) == ActiveStep(ActivePass(cards, ts[..i]), ts[i])
  {
    assert ts[..i + 1][..i] == ts[..i];
  }

  /** The body of the loop, on one trimmed line. */
  method ActiveLine(cards: seq<BtCard>, current: Option<string>, trimmed: string)
    returns (out: seq<BtCard>, current': Option<string>)
    ensures ActiveScan(out, current') == ActiveStep(ActiveScan(cards, current), trimmed)
  {
    ActiveStepOf(cards, current, trimmed);
    out, current' := cards, current;
    var name := StripPrefix(trimmed, "Name:");
    if name.Some? {
      current' := Some(Trim(name.value));
    }
    var active := StripPrefix(trimmed, "Active Profile:");
    if active.Some? {
      var profile := Trim(active.value);
      if current'.Some? {
        var found := FindByName(out, current'.value);
        if found.Some? {
          out := out[found.value := out[found.value].(activeProfile := Some(profile))];
        }
      }
    }
  }

  /** One iteration of the pass, in terms of the prefixes it strips. */
  lemma {:induction false} ActiveStepOf(cards: seq<BtCard>, current: Option<string>, t: string)
    ensures var name := StripPrefix(t, "Name:");
      var active := StripPrefix(t, "Active Profile:");
      var now := if name.Some? then Some(Trim(name.value)) else current;
      ActiveStep(ActiveScan(cards, current), t)
      == if active.Some? && now.Some? then ActiveScan(SetActive(cards, now.value, Trim(active.value)), now)
         else ActiveScan(cards, now)
  {
  }

  /** `iter_mut().find`, the search loop. */
  method FindByName(cards: seq<BtCard>, name: string) returns (r: Option<nat>)
    ensures r == FirstNamed(cards, name)
  {
    for i := 0 to |cards|
      invariant forall k :: 0 <= k < i ==> cards[k].name != name
    {
      if cards[i].name == name {
        r := Some(i);
        FirstNamedIs(cards, name, r);
        return;
      }
    }
    r := None;
    FirstNamedIs(cards, name, r);
  }

  /** `FirstNamed` is the only index that is the first with the name. */
  lemma {:induction false} FirstNamedIs(cards: seq<BtCard>, name: string, r: Option<nat>)
    requires r.Some? ==> r.value < |cards| && cards[r.value].name == name
    requires forall i :: 0 <= i < |cards| && (r.None? || i < r.value) ==> cards[i].name != name
    ensures FirstNamed(cards, name) == r
  {
  }

  /** The card the most recent "Name:" line among `ts` names. */
  function LastName(ts: seq<string>): (r: Option<string>)
    ensures r.Some? <==> exists j :: 0 <= j < |ts| && NameValue(ts[j]).Some?
  {
    if ts == [] then None
    else if NameValue(ts[|ts| - 1]).Some? then NameValue(ts[|ts| - 1])
    else
      var r := LastName(ts[..|ts| - 1]);
      assert forall j :: 0 <= j < |ts| - 1 ==> ts[..|ts| - 1][j] == ts[j];
      r
  }

  /** The value of the last "Active Profile:" line of `ts` that falls under
      a "Name:" line naming a card whose first occurrence in `cards` is `c`. */
  function LastActiveFor(cards: seq<BtCard>, ts: seq<string>, c: nat): Option<string> {
    if ts == [] then None
    else
      var t := ts[|ts| - 1];
      if ActiveValue(t).Some? && LastName(ts).Some? && FirstNamed(cards, LastName(ts).value) == Some(c)
      then ActiveValue(t)
      else LastActiveFor(cards, ts[..|ts| - 1], c)
  }

  /** `current_card` is always the card of the most recent "Name:" line. */
  lemma {:induction false} ActivePassCurrent(cards: seq<BtCard>, ts: seq<string>)
    ensures ActivePass(cards, ts).current == LastName(ts)
  {
    if ts != [] {
      ActivePassCurrent(cards, ts[..|ts| - 1]);
    }
  }

  /** The pass changes active profiles only: each card ends with the value
      of the last "Active Profile:" line attributed to it, so later values
      overwrite earlier ones, and keeps its own when there is none. */
  lemma {:induction false} ActivePassSpec(cards: seq<BtCard>, ts: seq<string>)
    ensures var r := ActivePass(cards, ts).cards;
      SameNames(r, cards)
      && forall c :: 0 <= c < |cards| ==>
           r[c] == cards[c].(activeProfile := LastActiveFor(cards, ts, c).Or(cards[c].activeProfile))
  {
    ActivePassNames(cards, ts);
    forall c | 0 <= c < |cards|
      ensures ActivePass(cards, ts).cards[c]
           == cards[c].(activeProfile := LastActiveFor(cards, ts, c).Or(cards[c].activeProfile))
    {
      ActivePassCard(cards, ts, c);
    }
  }

  lemma {:induction false} ActivePassNames(cards: seq<BtCard>, ts: seq<string>)
    ensures SameNames(ActivePass(cards, ts).cards, cards)
  {
    if ts != [] {
      var prev := ActivePass(cards, ts[..|ts| - 1]).cards;
      ActivePassNames(cards, ts[..|ts| - 1]);
      var r := ActivePass(cards, ts).cards;
      assert forall i :: 0 <= i < |prev| ==> r[i].name == prev[i].name;
    }
  }

  lemma {:induction false} ActivePassCard(cards: seq<BtCard>, ts: seq<string>, c: nat)
    requires c < |cards|
    ensures c < |ActivePass(cards, ts).cards|
    ensures ActivePass(cards, ts).cards[c]
         == cards[c].(activeProfile := LastActiveFor(cards, ts, c).Or(cards[c].activeProfile))
  {
    ActivePassNames(cards, ts);
    if ts != [] {
      var k := |ts| - 1;
      var prev := ActivePass(cards, ts[..k]);
      ActivePassCard(cards, ts[..k], c);
      ActivePassNames(cards, ts[..k]);
      ActivePassCurrent(cards, ts);
      var current := LastName(ts);
      if ActiveValue(ts[k]).Some? && current.Some? {
        FirstNamedByNames(prev.cards, cards, current.value);
      }
    }
  }

  // ---------------------------------------------------------------------
  // Pass 3: display names from `bluetoothctl info`

  /** The trimmed value of a trimmed "Alias:" line, or else of a "Name:" line. */
  function DisplayValue(t: string): (r: Option<string>)
    ensures r.Some? <==> StartsWith(t, "Alias:") || StartsWith(t, "Name:")
  {
    match StripPrefix(t, "Alias:")
    case Some(rest) => Some(Trim(rest))
    case None => NameValue(t)
  }

  /** The display value is the trimmed text after "Alias:" when the line
      starts with it, else the trimmed text after "Name:". */
  lemma {:induction false} DisplayValueIs(t: string)
    requires StartsWith(t, "Alias:") || StartsWith(t, "Name:")
    ensures DisplayValue(t) == Some(Trim(if StartsWith(t, "Alias:") then t[6..] else t[5..]))
  {
    if StartsWith(t, "Alias:") {
      assert StripPrefix(t, "Alias:").value == t[6..];
    }
  }

  predicate HasDisplayName(t: string) {
    DisplayValue(t).Some? && DisplayValue(t).value != []
  }

  /** The first non-empty display value among `ts`. */
  function FirstDisplayName(ts: seq<string>): Option<string> {
    if ts == [] then None
    else if HasDisplayName(ts[0]) then DisplayValue(ts[0])
    else FirstDisplayName(ts[1..])
  }

  /** No display name is found exactly when no line carries a non-empty one. */
  lemma {:induction false} FirstDisplayNameFound(ts: seq<string>)
    ensures FirstDisplayName(ts).None? <==> forall j :: 0 <= j < |ts| ==> !HasDisplayName(ts[j])
  {
    if forall j :: 0 <= j < |ts| ==> !HasDisplayName(ts[j]) {
      NoDisplayName(ts);
    } else {
      var j :| 0 <= j < |ts| && HasDisplayName(ts[j]);
      SomeDisplayName(ts, ts[j]);
    }
  }

  lemma {:induction false} NoDisplayName(ts: seq<string>)
    requires forall j :: 0 <= j < |ts| ==> !HasDisplayName(ts[j])
    ensures FirstDisplayName(ts).None?
    decreases |ts|
  {
    if ts != [] {
      var rest := ts[1..];
      forall j | 0 <= j < |rest| ensures !HasDisplayName(rest[j]) {
        assert rest[j] == ts[j + 1];
      }
      NoDisplayName(rest);
    }
  }

  lemma {:induction false} SomeDisplayName(ts: seq<string>, t: string)
    requires t in ts && HasDisplayName(t)
    ensures FirstDisplayName(ts).Some?
    decreases |ts|
  {
    if !HasDisplayName(ts[0]) {
      assert ts[0] != t;
      SomeDisplayName(ts[1..], t);
    }
  }

  /** The display name is that of the first line that carries one. */
  lemma {:induction false} FirstDisplayNameIsFirst(ts: seq<string>, j: nat)
    requires j < |ts| && HasDisplayName(ts[j])
    requires forall i :: 0 <= i < j ==> !HasDisplayName(ts[i])
    ensures FirstDisplayName(ts) == DisplayValue(ts[j])
  {
    if j > 0 {
      var rest := ts[1..];
      forall i | 0 <= i < j - 1 ensures !HasDisplayName(rest[i]) {
        assert rest[i] == ts[i + 1];
      }
      assert rest[j - 1] == ts[j];
      FirstDisplayNameIsFirst(rest, j - 1);
      assert !HasDisplayName(ts[0]);
    }
  }

  /** The search from line `i` either stops there or goes on from `i + 1`. */
  lemma {:induction false} FirstDisplayNameStep(ts: seq<string>, i: nat)
    requires i < |ts|
    ensures FirstDisplayName(ts[i..])
         == if HasDisplayName(ts[i]) then DisplayValue(ts[i]) else FirstDisplayName(ts[i + 1..])
  {
    assert ts[i..][0] == ts[i] && ts[i..][1..] == ts[i + 1..];
  }

  /** The loop over one card's `bluetoothctl info` lines, up to its `break`. */
  method DisplayNameIn(lines: seq<string>) returns (r: Option<string>)
    ensures r == FirstDisplayName(TrimLines(lines))
  {
    ghost var ts := TrimLines(lines);
    for i := 0 to |lines|
      invariant FirstDisplayName(ts[i..]) == FirstDisplayName(ts)
    {
      var t := Trim(lines[i]);
      FirstDisplayNameStep(ts, i);
      assert ts[i] == t;
      var nameStr := StripPrefix(t, "Alias:");
      if nameStr.None? {
        nameStr := StripPrefix(t, "Name:");
      }
      if nameStr.Some? {
        var n := Trim(nameStr.value);
        if n != [] {
          return Some(n);
        }
      }
    }
    return None;
  }

  /** A card after the display-name pass. */
  function WithDisplayName(card: BtCard, info: string -> seq<string>): BtCard {
    match FirstDisplayName(TrimLines(info(card.mac)))
    case Some(n) => card.(displayName := Some(n))
    case None => card
  }

  /** `for card in &mut cards`: each card asks `bluetoothctl info` for its MAC. */
  method AttachDisplayNames(cards: seq<BtCard>, info: string -> seq<string>) returns (out: seq<BtCard>)
    ensures |out| == |cards|
    ensures forall c :: 0 <= c < |cards| ==> out[c] == WithDisplayName(cards[c], info)
  {
    out := cards;
    for c := 0 to |cards|
      invariant |out| == |cards|
      invariant forall k :: 0 <= k < c ==> out[k] == WithDisplayName(cards[k], info)
      invariant forall k :: c <= k < |cards| ==> out[k] == cards[k]
    {
      var found := DisplayNameIn(info(out[c].mac));
      if found.Some? {
        out := out[c := out[c].(displayName := found)];
      }
    }
  }

  // ---------------------------------------------------------------------
  // The whole of list_bt_cards

  /** `list_bt_cards`: the cards of the short listing, each with the last
      active profile the long listing attributes to it and the first
      display name `bluetoothctl` gives for its MAC. */
  method ListBtCards(short: seq<string>, verbose: seq<string>, info: string -> seq<string>)
    returns (cards: seq<BtCard>)
    ensures var rows := ParseShortListing(short);
      |cards| == |rows|
      && forall c :: 0 <= c < |rows| ==>
           cards[c].name == rows[c].name && cards[c].mac == rows[c].mac
           && cards[c].activeProfile == LastActiveFor(rows, TrimLines(verbose), c)
           && cards[c].displayName == FirstDisplayName(TrimLines(info(rows[c].mac)))
  {
    cards := ParseShortListing(short);
    if |cards| == 0 {
      return;
    }
    ghost var rows := cards;
    ghost var ts := TrimLines(verbose);
    ParseShortListingCards(short);
    cards := AttachActiveProfiles(cards, verbose);
    ActivePassSpec(rows, ts);
    ghost var active := cards;
    cards := AttachDisplayNames(cards, info);
    forall c | 0 <= c < |rows|
      ensures cards[c].name == rows[c].name && cards[c].mac == rows[c].mac
      ensures cards[c].activeProfile == LastActiveFor(rows, ts, c)
      ensures cards[c].displayName == FirstDisplayName(TrimLines(info(rows[c].mac)))
    {
      assert rows[c] in rows;
      assert active[c] == rows[c].(activeProfile := LastActiveFor(rows, ts, c));
      assert cards[c] == WithDisplayName(active[c], info);
    }
  }
}
