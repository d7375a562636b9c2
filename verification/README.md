# dial client core in Dafny

This is a model of the deterministic core of `dial`, the command-line
client of the phone-call gateway. It covers four parts:

- **Bluetooth card and profile logic** (`Bluetooth`, `BluetoothCards`):
  - the MAC ↔ PulseAudio card-name conversion;
  - the parser that pulls one card's profiles out of `pactl list cards`;
  - the HFP codec choice and the ordered A2DP fallback;
  - the RUNNING test over `pactl list sources/sinks short`;
  - the three passes of `list_bt_cards`.
- **The gateway HTTP client** (`Api`):
  - `validate_phone`;
  - the base URL and its endpoints;
  - how a reply to `/call`, `/devices` and `/health` becomes a result or a `DialError` (`Errors`).
- **Gateway discovery** (`Discover`):
  - `is_link_local`;
  - the three-tier choice of an address from an mDNS resolution;
  - the host text and the URL formed from it.
- **The configuration record** (`Configuration`):
  - `is_placeholder` and `validate`;
  - the record `write_default` writes.

Everything that talks to the outside world becomes an input:

- **Command output** is given as its lines.
- **`pactl set-card-profile`**: whether a switch succeeds is a set `accepts` of the profiles whose switch succeeds. Each switch made is recorded, in order, in the `attempts` of the result.
- **`bluetoothctl info`** is a function from a MAC to its lines.
- **An HTTP reply** is `None` when sending failed. Otherwise it is its status plus whatever its body decodes to.

`Text` holds the pieces of Rust's `str` API that the code relies on, over
`string`:

- `trim`, with Unicode White_Space;
- `strip_prefix`, `trim_start_matches` and `trim_end_matches`;
- `replace`, `contains`;
- `splitn` up to a character;
- `parse::<u32>`;
- `u16` formatting.

Six of the source's `for` loops and `find` searches become methods with the same loop here, each proved equal to a specification function. The other iterator chains (`any`, `filter_map`, `lines()`) are modelled as functions:

- `Bluetooth.AvailableProfiles`: the `for` over the lines of `pactl list cards` in `available_profiles`;
- `Bluetooth.TryListed`: the `for` over the A2DP candidates in `switch_to_a2dp`;
- `BluetoothCards.AttachActiveProfiles`: the `for` of the active-profile pass of `list_bt_cards`;
- `BluetoothCards.FindByName`: the `iter_mut().find` inside that pass;
- `BluetoothCards.AttachDisplayNames`: the `for` over the cards in the display-name pass;
- `BluetoothCards.DisplayNameIn`: the inner `for` over one card's `bluetoothctl info` lines, with its `break`.

Lemmas then state the source's promises about each such function. The rest is functions and lemmas, as in the source.

## Model

| member | source | states |
|---|---|---|
| Bluetooth.MacToCardName | client/src/bluetooth.rs:100-102 | the name is "bluez_card." followed by the MAC with every ':' turned into '_', so it holds no ':' |
| Bluetooth.CardNameToMac | client/src/bluetooth.rs:106-109 | the MAC read back from a card name holds no '_' and is no longer than the name |
| Bluetooth.MacCardNameRoundTrip | client/src/bluetooth.rs:100-109 | for any MAC (no '.'), name then back gives the MAC with '_' written as ':' |
| Bluetooth.ColonMacRoundTrip | client/src/bluetooth.rs:100-109 | on a colon-form MAC the round trip is the identity |
| Bluetooth.HfpCodec.Label | client/src/bluetooth.rs:59-67 | every codec has a non-empty label |
| Bluetooth.LabelsDistinct | client/src/bluetooth.rs:59-67 | two codecs have the same label exactly when they are the same codec |
| Bluetooth.AvailableProfiles | client/src/bluetooth.rs:430-469 | the loop over trimmed lines, with its flags, clearing and `break`s, returns what the line-by-line scan `ProfilesListed` returns |
| Bluetooth.ScanInvariant | client/src/bluetooth.rs:441-466 | after any prefix of the lines, an open card block has an unended "Name: <card>" line. An open profile section also has a "Profiles:" line with no "Active Profile:" after it. Every collected name has such an origin |
| Bluetooth.StepKeepsScanInv | client/src/bluetooth.rs:441-466 | one iteration of the loop keeps that invariant |
| Bluetooth.ProfilesComeFromProfilesSection | client/src/bluetooth.rs:441-466 | every returned name is the trimmed text before the first ':' of a line after "Profiles:" in the block that the card's own "Name:" line opens. No Bluetooth card header and no "Active Profile:" line lies in between, and the line itself is none of these and no second "Profiles:". The name is never empty and holds no ':' |
| Bluetooth.SectionProfilesAreListed | client/src/bluetooth.rs:441-466 | conversely, the non-empty name on a line of the card's profile section is returned. The section is a "Profiles:" line after the card's first "Name:" line; nothing from that header to the line is a Bluetooth card header or an "Active Profile:" line; the line is not "Profiles:"; and no later line repeats the card's header |
| Bluetooth.NoHeaderNoProfiles | client/src/bluetooth.rs:441-446 | without a "Name: <card>" line the result is empty |
| Bluetooth.RepeatedHeaderClears | client/src/bluetooth.rs:441-446 | a repeated "Name: <card>" line reached while the loop runs discards all that was collected before it |
| Bluetooth.StopsAtOtherCardOrActiveProfile | client/src/bluetooth.rs:448-462 | another card's "Name: bluez_card." header, or "Active Profile:" inside the profile section, ends the parse: the result is what was collected before it |
| Bluetooth.ScanAppend | client/src/bluetooth.rs:441-466 | the scan over two pieces of a listing is the scan of the second from where the first left off |
| Bluetooth.TryInOrderSpec | client/src/bluetooth.rs:375-382 | the ordered fallback tries a prefix of its plan in order. It succeeds exactly when some candidate's switch succeeds, and then with the first such candidate. On failure every candidate was tried |
| Bluetooth.SwitchToHfp | client/src/bluetooth.rs:359-390 | `switch_to_hfp` with its early returns is the ordered fallback over the HFP plan: mSBC, then CVSD, then the audio gateway |
| Bluetooth.HfpChoice | client/src/bluetooth.rs:359-390 | mSBC wins exactly when a headset profile is listed and its switch succeeds. CVSD wins exactly when mSBC failed and CVSD succeeded. The gateway wins exactly when it is listed, no headset switch succeeded and its own switch succeeds. The result is `Err` exactly when every attempt failed, and then it carries the card and its profiles |
| Bluetooth.HfpAttempts | client/src/bluetooth.rs:363-382 | PipeWire names are used exactly when "headset-head-unit-cvsd" is listed. mSBC is tried first whenever a headset profile is listed. A headset profile is tried only if some listed profile starts with "headset-head-unit", the gateway only if it is listed |
| Bluetooth.SwitchToA2dp | client/src/bluetooth.rs:393-410 | `switch_to_a2dp` is the ordered fallback over the A2DP plan of the card's profiles |
| Bluetooth.TryListed | client/src/bluetooth.rs:401-405 | the candidate loop with its early return is the ordered fallback over the candidates that are listed, or over all of them when nothing is listed |
| Bluetooth.A2dpPlanSpec | client/src/bluetooth.rs:395-402 | the plan keeps exactly the listed candidates (all of them when nothing is listed), in the fixed order |
| Bluetooth.A2dpChoice | client/src/bluetooth.rs:393-410 | the switch succeeds exactly when some candidate is listed (or nothing is) and its switch succeeds. It tries only such candidates, as a subsequence of a2dp-sink, -aac, -sbc_xq, -sbc; with nothing listed, a prefix of them |
| Bluetooth.IsRunning | client/src/bluetooth.rs:342-354 | RUNNING exactly when some line contains the node name and does not contain "SUSPENDED" |
| BluetoothCards.SecondColumn | client/src/bluetooth.rs:478-480 | there is a second column exactly when the row holds a tab, and it holds no tab |
| BluetoothCards.ParseShortRow | client/src/bluetooth.rs:478-489 | a row is kept only if its first column is a `u32` and its trimmed second column starts with "bluez_card."; the card's name is that trimmed column. Its MAC is derived from the name, and it has no display name and no active profile |
| BluetoothCards.ParseShortRowOf | client/src/bluetooth.rs:478-489 | conversely, a row with a `u32` first column and a second column starting with "bluez_card." is kept, as the card of that trimmed name |
| BluetoothCards.ParseShortRowKept | client/src/bluetooth.rs:478-489 | a row is kept exactly when its trimmed first column parses as a `u32` and it has a second column whose trimmed text starts with "bluez_card." |
| BluetoothCards.ShortRowRoundTrip | client/src/bluetooth.rs:478-489 | a row as `pactl` writes it (index, tab, name made from a MAC, optional more columns) gives back that card and the MAC in colon form |
| BluetoothCards.ParseShortListing | client/src/bluetooth.rs:474-491 | `filter_map` over the rows: at most one card per row |
| BluetoothCards.FilterMapMembers | client/src/bluetooth.rs:474-491 | `filter_map` keeps exactly the values its function gives |
| BluetoothCards.ParseShortListingRows | client/src/bluetooth.rs:474-491 | a card is in the listing exactly when some row parses to it |
| BluetoothCards.ParseShortListingCards | client/src/bluetooth.rs:474-491 | every listed card has a "bluez_card." name, the MAC derived from it, and no display name or active profile yet |
| BluetoothCards.ParseShortListingAppend | client/src/bluetooth.rs:474-491 | the listing is parsed row by row, keeping row order |
| BluetoothCards.FirstNamed | client/src/bluetooth.rs:506 | `find` gives the first card with the name, or none when no card has it |
| BluetoothCards.FindByName | client/src/bluetooth.rs:506 | the search loop returns that first index |
| BluetoothCards.AttachActiveProfiles | client/src/bluetooth.rs:496-511 | the loop over the long listing's trimmed lines computes the pass `ActivePass` |
| BluetoothCards.ActiveLine | client/src/bluetooth.rs:500-510 | the loop body is one step of the pass |
| BluetoothCards.ActivePassCurrent | client/src/bluetooth.rs:496-501 | `current_card` is the card of the most recent "Name:" line |
| BluetoothCards.LastName | client/src/bluetooth.rs:500-502 | there is a current card exactly when some "Name:" line has been seen |
| BluetoothCards.ActivePassSpec | client/src/bluetooth.rs:496-511 | the pass changes active profiles only. Each card ends with the value of the last "Active Profile:" line under a "Name:" line whose first match is that card, so later values overwrite earlier ones. A card with no such line keeps its own value |
| BluetoothCards.FirstDisplayNameFound | client/src/bluetooth.rs:513-529 | no display name is found exactly when no line is an "Alias:" or "Name:" line with a non-empty value |
| BluetoothCards.FirstDisplayNameIsFirst | client/src/bluetooth.rs:517-526 | the display name is the value of the first such line. "Alias:" is read before "Name:" on the same line |
| BluetoothCards.DisplayValue | client/src/bluetooth.rs:519-522 | a line has a display value exactly when it starts with "Alias:" or "Name:" |
| BluetoothCards.DisplayValueIs | client/src/bluetooth.rs:519-522 | that value is the trimmed text after "Alias:" when the line starts with it, else after "Name:" |
| BluetoothCards.DisplayNameIn | client/src/bluetooth.rs:516-528 | the loop with its `break` returns the first display name of the trimmed lines |
| BluetoothCards.AttachDisplayNames | client/src/bluetooth.rs:513-529 | every card gets the first display name of its own `bluetoothctl info` lines, or keeps none. The cards keep their order |
| BluetoothCards.ListBtCards | client/src/bluetooth.rs:473-532 | the result is the short listing's cards, in order, with names and MACs unchanged. Each carries the last active profile attributed to it and the first display name for its MAC |
| Api.DigitsPart | client/src/api.rs:157 | at most one leading '+' is removed |
| Api.ValidatePhone | client/src/api.rs:156-165 | `Ok` exactly when the number is 7 to 15 ASCII digits with an optional leading '+'. The error carries the original number |
| Api.ValidatePhoneByPosition | client/src/api.rs:156-165 | the same rule, character by character |
| Api.DoublePlusRejected | client/src/api.rs:157 | "++…" is rejected |
| Api.InteriorPlusRejected | client/src/api.rs:157-158 | a '+' anywhere but first is rejected |
| Api.EmptyAndPlusRejected | client/src/api.rs:157-161 | "" and "+" are rejected |
| Api.NewClient | client/src/api.rs:63-74 | the base URL is the configured URL minus its trailing '/'s: a prefix that leaves only '/'s behind and does not end in '/'. The token is kept |
| Api.BaseUrlUnique | client/src/api.rs:71 | that prefix is unique |
| Api.BaseUrlIgnoresTrailingSlashes | client/src/api.rs:71 | trailing '/'s in the configuration make no difference, and normalising twice changes nothing |
| Api.EndpointUrls | client/src/api.rs:80-147 | whatever number of '/'s ends the configured URL, "/call", "/devices" and "/health" follow it with exactly one |
| Api.ErrorMessage | client/src/api.rs:105-112 | the message is `reason`, else `error`, else "Unknown error". A body that does not decode gives "Unknown error" |
| Api.CallOutcome | client/src/api.rs:79-118 | `Ok` exactly for 200 with a body that decodes. 401 gives `Unauthorized`, 404 `DeviceOffline` and any other status `GatewayError`. A failed send or undecodable 200 body gives `Http` |
| Api.CallSuccessFields | client/src/api.rs:93-98 | a 200 reply reports the gateway's device id, or else the one asked for, and the command id, or else "". The `ok` field plays no part |
| Api.CallErrorPayloads | client/src/api.rs:100-117 | 404 carries the requested device; other statuses carry the status and the message |
| Api.DevicesOutcome | client/src/api.rs:124-141 | 200 gives the decoded body, 401 `Unauthorized`, and any other status `GatewayError` with that status and the body text (or ""). A failed send or undecodable 200 body gives `Http` |
| Api.DevicesNotFoundIsGatewayError | client/src/api.rs:101-140 | 404 is `DeviceOffline` for `call` but a gateway error for `devices` |
| Api.HealthOutcome | client/src/api.rs:146-150 | the result is the JSON body when there is one, whatever the status, else `Http` |
| Api.HealthIgnoresStatus | client/src/api.rs:146-150 | the status makes no difference to `health` |
| Discover.LinkLocalV4Range | client/src/discover.rs:93 | the IPv4 octet test is exactly the block 169.254.0.0/16, as a range of 32-bit numbers |
| Discover.LinkLocalV6Range | client/src/discover.rs:94 | the IPv6 mask test is exactly the prefix fe80::/10 (first segment 0xfe80 to 0xfebf) |
| Discover.FindFirst | client/src/discover.rs:64-68 | `find` gives the first index that satisfies the test, or none |
| Discover.ChooseAddress | client/src/discover.rs:64-70 | an address is chosen exactly when there is one, and it is one of the resolution's addresses |
| Discover.ChooseAddressTiers | client/src/discover.rs:63-70 | the chosen address is the first IPv4 that is neither loopback nor link-local. Failing that, it is the first non-loopback address of either family. Failing that, it is the first address |
| Discover.V4Text | client/src/discover.rs:72 | dotted-decimal text holds no ':' and no brackets |
| Discover.V6Text | client/src/discover.rs:72 | IPv6 text holds a ':' and no brackets |
| Discover.AddrText | client/src/discover.rs:72 | an address's text holds a ':' exactly when it is IPv6 |
| Discover.GatewayUrlAsWritten | client/src/discover.rs:72-74 | the URL as the source writes it starts with "http://"; for IPv4 its authority splits back into the address text and the port text |
| Discover.AsWrittenLosesV6Host | client/src/discover.rs:72-74 | for every IPv6 address, the host read back from that URL is not the address |
| Discover.UrlHost | client/src/discover.rs:72-74 | the host as a URL carries it: IPv6 in brackets, so ':' appears in it exactly for IPv6 |
| Discover.GatewayUrl | client/src/discover.rs:72-74 | the corrected URL starts with "http://", and its authority splits back into the bracketed host and the port text |
| Discover.GatewayUrlRoundTrip | client/src/discover.rs:72-76 | the host read back from the corrected URL is the address text, inside brackets for IPv6, and the port text reads as the port. For IPv4 it is the URL the source writes |
| Discover.AuthorityRoundTrip | client/src/discover.rs:74 | a bracketed or colon-free host, ':' and a port split back into the two |
| Discover.GatewayFromResolution | client/src/discover.rs:64-76 | there is a gateway exactly when there is an address. It holds the chosen address's text as host, the port, and the URL the source writes from them, unbracketed for IPv6 |
| Discover.GatewayFromResolutionFixed | client/src/discover.rs:64-76 | the same gateway with the corrected URL |
| Discover.FixChangesOnlyV6Urls | client/src/discover.rs:72-76 | the correction keeps host and port, and changes the URL exactly when the chosen address is IPv6 |
| Configuration.IsPlaceholder | client/src/config.rs:89-91 | a placeholder exactly when the URL is empty or all whitespace, or equals `PLACEHOLDER_URL` untrimmed |
| Configuration.PaddedPlaceholderIsNot | client/src/config.rs:90 | the placeholder URL with whitespace around it is not a placeholder |
| Configuration.Validate | client/src/config.rs:94-99 | `Unauthorized` exactly when the token is empty or all whitespace, otherwise `Ok` |
| Configuration.ValidateIgnoresUrl | client/src/config.rs:94-99 | validation depends on the token only |
| Configuration.DefaultConfig | client/src/config.rs:62-65 | the default record has the placeholder URL, is a placeholder, and passes validation |
| Text.TrimEmpty | client/src/config.rs:90-95 | `trim().is_empty()` holds exactly when the string is all whitespace |
| Text.DecimalText | client/src/discover.rs:74 | a port's decimal text is non-empty, all digits, and reads back as the port |

## Left out

- Process spawning is not modelled: `pactl`, `wpctl`, `pw-loopback` and `bluetoothctl` are replaced by their output, given as lines.
- `from_utf8_lossy` and `lines()` are not modelled: the output is taken as already decoded and split.
- `try_set` is the set `accepts`: a switch does not change whether a later one succeeds.
- `activate_hfp`, `HfpSession` and its `Drop`, `teardown`, `kill_child` and the WirePlumber autoswitch calls are left out. They are side effects on other processes.
- `wait_for` is left out: it is time-based polling with `sleep`.
- `has_source` and `has_sink` are left out: a plain `contains` over the whole output.
- The non-Linux stubs are left out.
- The HTTP transport is left out: client building, timeouts, sending, the bearer header, the request body and JSON decoding. A reply is an `Option` of status and decoded body.
- `health`'s `serde_json::Value` is a type parameter.
- The mDNS daemon, the browse channel, the `recv_timeout` loop and its deadline are left out, and so is the clean-up after it. Only the choice made for a resolved service is modelled.
- The addresses of a resolved service come from a hash set in the source. They are a sequence here, in the order iteration would give them.
- Discover.V6Text: the text follows `Ipv6Addr`'s `Display` (zero-run compression, IPv4-mapped form), but only its alphabet is proved. No parse-back lemma is stated.
- `Config::path`, `load`, `save` and the file writes of `write_default` are left out: file I/O and TOML. Only the default record is kept.
- The message templates of `DialError` are left out. Its variants are kept.
- client/src/main.rs is not part of this model.
- Api.ValidatePhone: the source counts bytes, this model counts characters. They agree whenever the remainder is all ASCII digits, which is the only case that can pass.
- Bluetooth.ScanStep: the source's other-card test also asks that the line differ from the card's own header. The preceding branch already handles the card's own header, so the specification function leaves that test out; the method `Bluetooth.AvailableProfiles` keeps it.

## Findings

| source | as written | input that shows it | evidently intended | confidence | as-written member | corrected member |
|---|---|---|---|---|---|---|
| client/src/discover.rs:72-74 | the URL is "http://" + address text + ":" + port, so an IPv6 host goes in without brackets | any IPv6 address, e.g. fe80::1 with port 3000 gives "http://fe80::1:3000", whose host reads back as "fe80" | the host of an IP-literal is bracketed, as section 3.2.2 of RFC 3986 asks ("http://[fe80::1]:3000"), while the `host` field keeps the plain text | not executed | Discover.GatewayFromResolution, Discover.GatewayUrlAsWritten, Discover.AsWrittenLosesV6Host | Discover.GatewayFromResolutionFixed, Discover.GatewayUrl, Discover.GatewayUrlRoundTrip, Discover.FixChangesOnlyV6Urls |
