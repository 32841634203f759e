# Insights status bot: the status tracker

This project models the status tracker of a Slack bot that watches a status
page. The bot keeps two pieces of state:

- `stats`: the last status document it cared about;
- `insightsComps`: a table from component id to the last observation
  written for each watched component (the last one written, which need
  not be the most recent one).

Every poll runs one reconciliation pass over the freshly fetched incidents.
The pass works against the stored document as its baseline. It considers
each incident that is newer than the baseline's first incident, or every
incident when there is no baseline. It overwrites the table entry of every
watched component of a considered incident. It stores the new document only
when it wrote at least one component ("care").

From that state the bot renders:

- the component report, coloured by a running fold over the table entries;
- an incident message, coloured by the incident's status;
- the replies of the timer and of the `status`, `components` and `last`
  queries;
- its own uptime as `Dd:HHh:MMm:SSs`.

Modules:

- `Options`: the `Option` datatype.
- `StatusTypes`: components, incidents, the status document and the message shapes.
- `Severity`: the incident colour (`get_symbol`).
- `ComponentTable`: the component table as a JavaScript object.
  - It keeps its own keys in insertion order.
  - Its entries are a map.
  - `Put` is one `table[id] = comp` assignment.
- `Presenter`: the colour fold and fields of the component report, and the incident message.
- `StatusTracker`: the `Tracker` class with its two fields.
  - `Reconcile` is the reconciliation pass with its two loops; `RecordComponents` is the inner loop.
  - `FormatComponents` is the report loop.
  - `UpdateRequest` and `HandleQuery` are the handlers.
  - The functions `WatchedOf` and `Written` say which components a pass writes, in order. Lemmas about them state what a pass does.
- `Decimal` and `Uptime`: decimal text of whole numbers, and the uptime text together with a reader that inverts it.

The model takes these as inputs:

- the parsed status document;
- the configured component ids and group id (`WatchSet`);
- the rendering of a timestamp as text (`dateText`), which depends on locale and time zone.

## Model

| member | source | states |
|---|---|---|
| Severity.Symbol | index.js:149-159 | "good" exactly for operational, completed and resolved; "warn" exactly for partial_outage and scheduled; "danger" for every other string; always one of the three (lists at index.js:22-23) |
| Presenter.Colour | index.js:161-174 | the running colour is "" exactly for an empty table and otherwise one of good, warn, danger |
| Presenter.ColourTransitions | index.js:166-174 | from "warn" any component leads to "danger"; from "", "good" or "danger" an operational component leads to "good" and any other to "warn" |
| Presenter.ColourIsRunColour | index.js:161-181 | the colour equals an independent description by the last run of non-operational components: odd run warn, even non-empty run danger, after an operational component danger if the run before it is odd, else good; it is not a worst-of reduction |
| Presenter.AllOperationalIsGood | index.js:164-174 | a non-empty table of operational components is "good" |
| Presenter.WarnIffOddTrailingRun | index.js:164-174 | the colour is "warn" exactly when the table ends in an odd run of non-operational components |
| Presenter.ComponentFields | index.js:176-180 | one field per entry, in order, titled with the component's name and its status in backquotes, valued with the rendered update time |
| Presenter.ReportStep | index.js:164-180 | one more entry adds one colour step and appends one field |
| Presenter.FormatIncident | index.js:197-223 | a message exists exactly when the incident has an update; it has the header as text, the colour of `Severity.Symbol` of the status, and two fields: the name with status, created and updated time, then "Note:" with the first update |
| Presenter.PhantomEntry | index.js:116-119 | as the loop at index.js:164-181 runs, the inherited `isEmpty` key adds one trailing field and the colour is never good or empty; over the table's own entries there is one field per entry and an all-operational table is good |
| Decimal.NatToString | index.js:237 | the decimal text of a number is digits only, has no leading zero, has one digit exactly below 10 and two exactly from 10 to 99, and reads back as the number |
| Decimal.Pad2 | index.js:234-236 | the text is digits only, at least two long, exactly two long below 100, and reads back as the number |
| Uptime.Decompose | index.js:226-232 | days, hours, minutes and seconds add back up to the input, with hours below 24 and minutes and seconds below 60 |
| Uptime.DecomposeUnique | index.js:226-232 | the decomposition is the only one with those bounds |
| Uptime.RenderRoundTrip | index.js:234-237 | any parts with two-digit hours, minutes and seconds render to a text that reads back as their total in seconds |
| Uptime.UptimeRoundTrip | index.js:225-237 | the uptime text of any number of seconds reads back as that number |
| Uptime.FormatUptime | index.js:225-237 | the step-by-step div/mod and padding produces the rendering of the decomposition, and that text reads back as the input |
| ComponentTable.Put | index.js:258 | the assigned id holds the component; no other key changes; a new key goes last; the old key order is kept; validity is kept |
| ComponentTable.Values | index.js:164-165 | the entries in key order, one per key |
| ComponentTable.PutAll | index.js:255-260 | a run of assignments keeps the table valid |
| ComponentTable.PutAllGet | index.js:255-260 | after a run of assignments a key holds the last component assigned to it, or keeps its old entry |
| ComponentTable.PutAllAppend | index.js:249-262 | two runs of assignments one after the other equal the run of both |
| ComponentTable.PutAllKeepsOrder | index.js:258 | assignments only append keys, so the old iteration order is a prefix of the new one |
| ComponentTable.LastWithIdIsLast | index.js:255-260 | the last component with an id is found at the greatest position holding that id, and is absent exactly when no position holds it |
| ComponentTable.LastWithIdAppend | index.js:249-262 | of two runs, the later one decides the last component with an id |
| StatusTracker.WatchedOfMembers | index.js:256 | a component is selected exactly when it is listed and its id is configured or its group id equals the configured one |
| StatusTracker.WrittenSource | index.js:254-259 | every written component is a watched component of a considered incident |
| StatusTracker.WrittenComplete | index.js:254-259 | every watched component of a considered incident is written |
| StatusTracker.WrittenMembers | index.js:249-262 | a component is written exactly when it is a watched component of a considered incident |
| StatusTracker.CareIff | index.js:248-261 | the pass cares exactly when some considered incident lists a watched component |
| StatusTracker.CareNeedsIncident | index.js:249-266 | caring requires at least one incident, so a stored document always has a first incident |
| StatusTracker.ColdStart | index.js:251-254 | with no baseline, the pass cares exactly when any incident lists a watched component |
| StatusTracker.Repoll | index.js:254 | polling the stored document again cares exactly when an incident newer than its first incident lists a watched component |
| StatusTracker.PassKeepsOtherEntries | index.js:255-259 | a key that no watched component of a considered incident carries keeps its entry, or stays absent |
| StatusTracker.PassKeepsKeys | index.js:258 | a pass removes no key and keeps the old key order as a prefix |
| StatusTracker.LaterIncidentWins | index.js:249-262 | when a considered incident writes a key and no later considered incident does, the table holds that incident's last watched component with that id |
| StatusTracker.WrittenLast | index.js:249-262 | the last written component with an id comes from the last considered incident that writes it |
| StatusTracker.StaleObservationOverwrites | index.js:258 | with no freshness check, an older observation from a later incident replaces a newer one |
| StatusTracker.PutAllWatched | index.js:255-259 | writing only watched components keeps every entry a watched component stored under its own id |
| StatusTracker.PassStep | index.js:249-262 | one more incident adds its watched components to the care flag and the table when it qualifies, and nothing otherwise |
| StatusTracker.RecordStep | index.js:255-260 | one more component sets the care flag and is written exactly when it is watched |
| StatusTracker.QueryReply | index.js:337-376 | with no stored document the reply is the fixed "not currently available" text of the query; otherwise the status reply is the document's description, the components reply is the report over the table's entries (one field per entry), and the last-incident reply is the message for the first incident under "Most recent Insights Incident", sent exactly when that incident has an update |
| Presenter.Step | index.js:166-174 | one colour step: an operational component gives "good" unless the colour is "warn"; after "warn" any component gives "danger"; otherwise "warn" |
| Presenter.ComponentsMessage | index.js:182-194 | the report over the table's own entries: fallback and title "Insights Services Status", the running colour, one field per entry, the footer and its icon |
| Presenter.ComponentsMessageAsWritten | index.js:116-119 | the report as the loop at index.js:164-194 builds it, with the inherited `isEmpty` key visited after the own entries: one more colour step on an undefined status and one more field |
| StatusTracker.Watched | index.js:256 | a component is watched when its id is among the configured ids or its group id loosely equals the configured group id (an unset group id equals a `null` one) |
| StatusTracker.Qualifies | index.js:251-254 | an incident is considered when there is no baseline or it was updated strictly after the baseline's first incident |
| StatusTracker.NotAvailable | index.js:344 | the fixed reply of each query while no document is stored: the status, components and incidents texts of index.js:344, 358 and 372 |
| Uptime.Render | index.js:234-237 | the uptime text: unpadded days, then hours, minutes and seconds each padded to two digits, with the unit letters and colons between |
| StatusTracker.Tracker.constructor | index.js:21-24 | an empty baseline and an empty table |
| StatusTracker.Tracker.Reconcile | index.js:247-267 | care is whether the pass wrote any component against the fixed old baseline; `stats` becomes the new document exactly when care; the table is the old table after all the writes of the pass; the class invariant holds |
| StatusTracker.Tracker.RecordComponents | index.js:255-260 | the watched components of one incident are written in order; the result says whether there were any; `stats` is unchanged; the class invariant is kept |
| StatusTracker.Tracker.FormatComponents | index.js:161-195 | the loop produces the report over the table's own entries in key order |
| StatusTracker.Tracker.UpdateRequest | index.js:320-335 | after a pass, post the first incident of the stored document exactly when the pass cared and that incident has an update; nothing changes when fetching failed |
| StatusTracker.Tracker.HandleQuery | index.js:337-376 | after a pass, reply as `QueryReply` says from the new state; nothing changes or is replied when fetching failed |

## Left out

- Login, the cookie jar and its time-to-live check, the HTTP requests and the promise chaining (index.js:121-147, 241-246, 320-376) are network I/O. A failed login, fetch or parse is the `None` input of the handlers.
- `JSON.parse` of the body (index.js:247) is left out: the model takes the parsed document.
- The logging calls (index.js:250, 252) are left out, and so is the fact that `JSON.dumps` is not a JavaScript function: the model assumes they have no effect. As written they would throw before the first incident is handled.
- The error handler at index.js:331-333 names `err`, which is not bound there, so it would throw a ReferenceError instead of logging; either way nothing is posted. It is left out.
- `index.js:153` has one closing parenthesis too many and does not parse. `Severity.Symbol` models the evident else-if on the warning statuses.
- Botkit and Slack wiring is left out because it belongs to a library outside this model. This covers installation, storage, the choice between custom integration and app, RTM reconnects, command routing, the help and "pinky" replies, the timer and `postMessage`/`reply` themselves.
- The uptime reply wraps the uptime text in the bot name and the host name from the environment (index.js:378-384). It is left out; `Uptime.FormatUptime` models the text it embeds.
- The random `a/s/l` reply and `loc.json` (index.js:386-391) are left out because they use randomness.
- Uptime.FormatUptime: takes whole seconds. `process.uptime()` returns a float; its fraction survives the `%=` steps and is dropped only at index.js:232 (the floors at index.js:226, 228 and 230 drop no more than flooring the input first would), so for a non-negative input the source's text is `FormatUptime` of the floor of that input.
- Timestamps are whole numbers. Comparing two `new Date(...)` values is integer `>` in `StatusTracker.Qualifies`; only the rendering of a date as text is a parameter (`dateText`). Invalid dates (NaN comparisons) are not modelled.
- ComponentTable.Put: keys that look like array indices are visited by `for...in` in numeric order before the others. The model keeps plain insertion order for all keys.
- `format_incident` dereferences `incident_updates[0].body` and fails on an incident without updates. `Presenter.FormatIncident` returns `None` there, and the handlers then send nothing.
- `update_request` posts `stats.incidents[0]`, the first incident of the new document. That incident need not be the one whose components made the pass care; the model states what the code does.
- One might expect a freshness guard, an always-advancing baseline, a worst-of colour and a silent cold start; the code has none of these, and the model follows the code:
  - Component writes have no monotonic timestamp guard.
  - The baseline advances only when the pass cared.
  - The component colour is a running fold, not a worst-of reduction.
  - A cold start is not silent: the first pass that sees a watched component cares and posts.
- StatusTracker.Tracker.RecordComponents: the source writes `insightsComps[comp.id]` inside the loop. The method builds the new table in a local and assigns the field once at the end; no other code runs between those writes.
- The tracker is single-threaded; concurrent handler invocations interleaving at the promise boundaries are not modelled.

## Findings

| source | as written | input that shows it | evidently intended | confidence | as-written member | corrected member |
|---|---|---|---|---|---|---|
| index.js:116-119 with index.js:164-181 | `isEmpty` is added to `Object.prototype` as an enumerable property, so `for (var key in insightsComps)` also visits `isEmpty` after the table's own keys, adding a field whose title is a colon and the word undefined in backquotes, and one more colour step | an empty table gives colour "warn" and one field; a table of operational components gives "warn" instead of "good" | the report covers only the table's own entries | not executed | Presenter.ComponentsMessageAsWritten (Presenter.PhantomEntry) | StatusTracker.Tracker.FormatComponents (Presenter.ComponentsMessage) |
