# ProofOfTask core in Dafny

ProofOfTask is a demo of drone "proof of task" mining. A drone flies a task,
three witness nodes sign it, the page shows their verdicts and mints a
reward, and a prover checks that the flight never exceeded 120 m. This
project models the logic behind that demo and proves properties of it:

- the 2D page's task lifecycle, witness timers, elapsed counter, timeout
  warning, start guard, canvas wrap and witness labels (`TaskApp`, with the
  witness record shared with the 3D page in `Witnesses`);
- the 3D globe page's drone trail, task run, the trail captured on
  completion, and the replay stepping (`GlobePage`);
- the Babylon scene's view modes, hot keys and witness flags (`Scene`);
- the dashboard's signal tiers, clamped bar widths and the replay-proof
  panel (`Dashboard`);
- the altitude prover: its proof record, verification and chain format
  (`NautilusProof`);
- the virtual LoRa radio: channel naming, signal strength, packets and
  reception (`LoRaSim`);
- witness node 3: the HMAC check, the GPS offset, the guards of task
  processing and the connection's reply loop (`WitnessNode`);
- Python's `bytes.hex()` / `bytes.fromhex` with their round trip (`Hex`),
  truncation toward zero and products of reals (`RealArith`), and an
  `Option` type (`Wrappers`).

State the source changes in place is a class: `TaskApp.TaskApp`,
`GlobePage.GlobeView`, `Scene.ProofOfTaskScene` (its witnesses are an
array), `Dashboard.ReplayProofPanel` and `WitnessNode.JsonDict`. Timers and
intervals are explicit events. `FireTimer` is the earliest pending witness
timer expiring. `SecondTick` and `Tick` are one period of an interval.
Randomness (the drone jitter), the wall clock, SHA-256, HMAC, Ed25519 and
JSON text are parameters. Floats are `real`, and rounding is not modelled.

## Model

| member | source | states |
|---|---|---|
| Witnesses.DeadlinesFollowIndexOrder | ui/src/App.jsx:108-119 | the callbacks' delays 2000/4000/6000 ms order them by witness index |
| Witnesses.MarkVerified | ui/src/App.jsx:109-116 | witness k becomes verified; every other entry, and every id, stays as it was |
| Witnesses.ResetAll | ui/src/App.jsx:135 | every witness becomes pending, with ids (and positions) unchanged |
| Witnesses.CountVerified | ui/src/App.jsx:187 | the number of verified witnesses is at most their number, and equals it iff all are verified |
| Witnesses.CountFirstVerified | ui/src/App.jsx:108-119 | when exactly the first n witnesses are verified, the count is n |
| Witnesses.MarkNextVerified | ui/src/App.jsx:109-116 | verifying witness n after the first n extends the verified prefix to n+1 |
| TaskApp.TimeoutWarning | ui/src/App.jsx:187 | with three witnesses, the warning shows iff running, elapsed > 60 and some witness is not verified |
| TaskApp.StartEnabled | ui/src/App.jsx:198 | the start button is disabled exactly when the task is running or no account is connected |
| TaskApp.JsRem | ui/src/App.jsx:37-38 | JavaScript `%` on numbers takes the dividend's sign and lies strictly within the divisor |
| TaskApp.CanvasWrap | ui/src/App.jsx:37-38 | `(x % w + w) % w` on a float position lies in [0, w), is the floored remainder x - floor(x / w) * w, and is x itself when 0 <= x < w |
| TaskApp.WrapIsFloored | ui/src/App.jsx:37-38 | the double JavaScript remainder equals the floored remainder |
| TaskApp.WitnessLabel | ui/src/App.jsx:75 | "✓ Signed" exactly for verified, "✗ Failed" exactly for failed, "⋯ Waiting" exactly for pending |
| TaskApp.WitnessColour | ui/src/App.jsx:64-68 | the green class exactly for verified, red exactly for failed, grey exactly for pending |
| TaskApp.InitialWitnesses | ui/src/App.jsx:84-88 | three witnesses with ids 1, 2, 3, none verified |
| TaskApp.TaskApp.constructor | ui/src/App.jsx:83-91 | initial state: idle, the three pending witnesses, reward 0, elapsed 0, no timers |
| TaskApp.TaskApp.Start | ui/src/App.jsx:133-138 | when enabled: running, witnesses reset to pending with ids kept, reward 0, elapsed 0, three timers pending; disabled while running or with no account (line 198), and then nothing changes |
| TaskApp.TaskApp.FireTimer | ui/src/App.jsx:105-124 | the k-th callback verifies only witness k; only the third completes the task with reward 10; a status change clears the remaining timers |
| TaskApp.TaskApp.SecondTick | ui/src/App.jsx:126-131 | elapsed grows by exactly 1 per tick while running, and not otherwise |
| TaskApp.TaskApp.CompletedIffAllVerified | ui/src/App.jsx:108-119 | in every reachable state: completed iff all three witnesses are verified, and completed means reward 10 |
| TaskApp.TaskApp.NoWitnessFails | ui/src/App.jsx:105-124 | no reachable state has a failed witness |
| TaskApp.EndToEndRun | ui/src/App.jsx:105-138 | a start followed by the three callbacks, two ticks apart, ends completed with reward 10, elapsed 6 and three verified witnesses |
| GlobePage.PushTrail | ui/src/pages/GlobePage.jsx:73 | the new trail ends in the new position, keeps the latest earlier positions in order, and has min(old length + 1, 20) entries |
| GlobePage.InitialWitnesses | ui/src/pages/GlobePage.jsx:56-60 | three witnesses with ids 1, 2, 3, none verified |
| GlobePage.ReplayFrames | ui/src/pages/GlobePage.jsx:103-114 | frame 0 puts the drone at the first recorded point (or home) with an empty trail; frame i+1 is point i with the points before it as trail; the interval runs one more time than there are points |
| GlobePage.GlobeView.constructor | ui/src/pages/GlobePage.jsx:52-63 | initial state: drone at home with no trail, pending witnesses, no completed trail, idle |
| GlobePage.GlobeView.StartEnabled | ui/src/pages/GlobePage.jsx:175 | the start button is disabled exactly while running, which in a reachable state is exactly while witness timers are pending |
| GlobePage.GlobeView.ReplayAvailable | ui/src/pages/GlobePage.jsx:180 | the replay button is shown exactly with a non-empty completed trail, which in a reachable state only happens after a completed run with all three witnesses verified |
| GlobePage.GlobeView.Tick | ui/src/pages/GlobePage.jsx:65-79 | the drone moves by the jitter and the trail is the pushed trail |
| GlobePage.GlobeView.Start | ui/src/pages/GlobePage.jsx:97-101 | when not running (line 175): running, witnesses reset, completed trail emptied, three timers scheduled |
| GlobePage.GlobeView.FireTimer | ui/src/pages/GlobePage.jsx:81-95 | the k-th callback verifies only witness k; the third completes and stores the trail captured when the run began (the effect's stale `dronePos`) |
| GlobePage.GlobeView.Replay | ui/src/pages/GlobePage.jsx:103-114 | offered only with a non-empty completed trail (line 180); the drone ends at the last frame of the replay |
| GlobePage.GlobeView.CompletedIffAllVerified | ui/src/pages/GlobePage.jsx:81-95 | in every reachable state: completed iff all three witnesses are verified |
| GlobePage.StaleTrailRun | ui/src/pages/GlobePage.jsx:81-95 | a run started on an empty trail completes with an empty completed trail, even though the drone has moved since |
| Scene.IndexOf | ui/src/babylon/Scene.js:300 | `indexOf`: the first position of the value, or -1 exactly when it is absent |
| Scene.NextMode | ui/src/babylon/Scene.js:298-303 | the next mode is always one of globe, ar, replay |
| Scene.CycleOrder | ui/src/babylon/Scene.js:298-303 | globe goes to ar, ar to replay, replay to globe |
| Scene.UnknownModeCyclesToGlobe | ui/src/babylon/Scene.js:300-301 | a mode outside the list (index -1) cycles to globe |
| Scene.ThreeCyclesReturn | ui/src/babylon/Scene.js:298-303 | three cycles from a listed mode return to it |
| Scene.SwitchEffect | ui/src/babylon/Scene.js:287-296 | replay starts the golden trail, ar starts AR, and only those |
| Scene.ToLower | ui/src/babylon/Scene.js:267 | `toLowerCase` keeps the length and lowers each letter A-Z |
| Scene.LowerIsChar | ui/src/babylon/Scene.js:267 | a key lowers to a given single character iff it is that character or its upper-case letter |
| Scene.KeyCommand | ui/src/babylon/Scene.js:264-284 | g/G, a/A, r/R switch to their mode, s/S shows the stake panel, space cycles, every other key does nothing |
| Scene.InitialWitnessData | ui/src/babylon/Scene.js:229 | every witness starts with its index as id and not verified |
| Scene.ProofOfTaskScene.constructor | ui/src/babylon/Scene.js:11 | the scene starts in globe mode with three unverified witnesses (lines 116-126) |
| Scene.ProofOfTaskScene.SwitchMode | ui/src/babylon/Scene.js:287-296 | the mode becomes the argument, with that mode's side effect |
| Scene.ProofOfTaskScene.CycleMode | ui/src/babylon/Scene.js:298-303 | the mode becomes the next in the list |
| Scene.ProofOfTaskScene.HandleKey | ui/src/babylon/Scene.js:264-284 | each key's reaction, with the mode unchanged for the stake panel and ignored keys |
| Scene.ProofOfTaskScene.VerifyWitness | ui/src/babylon/Scene.js:322-328 | an existing witness becomes verified and nothing else changes; an index with no witness changes nothing |
| Dashboard.SignalTier | ui/src/pages/DashboardPage.jsx:87 | green iff signal > -75, yellow iff -85 < signal <= -75, red iff signal <= -85 |
| Dashboard.SignalWidth | ui/src/pages/DashboardPage.jsx:88 | the width is at most 100 and at most (100 + signal) * 1.5, equals one of the two, and is non-negative from -100 dBm up |
| Dashboard.SignalWidthMonotone | ui/src/pages/DashboardPage.jsx:88 | a stronger signal never gives a narrower bar |
| Dashboard.WeightWidth | ui/src/pages/DashboardPage.jsx:41 | the weight bar is twice the weight, capped at 100 |
| Dashboard.RadarTiers | ui/src/pages/DashboardPage.jsx:54-59 | the four listed witnesses fall in tiers green, red, green, red |
| Dashboard.ReplayProofPanel.constructor | ui/src/pages/DashboardPage.jsx:99-100 | not loading, no proof |
| Dashboard.ReplayProofPanel.FetchEnabled | ui/src/pages/DashboardPage.jsx:122-129 | the fetch button is usable exactly without a proof and when not loading; in a reachable state, exactly without a proof and with no fetch pending |
| Dashboard.ReplayProofPanel.ClearShown | ui/src/pages/DashboardPage.jsx:158-163 | the Clear button is shown exactly with a proof; in a reachable state it is then not loading and the fetch button is not usable |
| Dashboard.ReplayProofPanel.PressFetch | ui/src/pages/DashboardPage.jsx:102-104 | accepted only when the fetch button is shown and enabled (lines 122-129); it sets loading and starts the fetch |
| Dashboard.ReplayProofPanel.FetchResolves | ui/src/pages/DashboardPage.jsx:105-112 | a pending fetch ends with the fixed proof record and loading off |
| Dashboard.ReplayProofPanel.PressClear | ui/src/pages/DashboardPage.jsx:158-163 | clear, shown only with a proof, removes it and re-enables fetching |
| Dashboard.FetchAndClear | ui/src/pages/DashboardPage.jsx:98-167 | fetch, resolve and clear return the panel to its fetchable state |
| NautilusProof.Altitude | python/nautilus_proof.py:38 | a point's altitude, 0 when it has none |
| NautilusProof.Altitudes | python/nautilus_proof.py:38 | one altitude per point, in order |
| NautilusProof.Max | python/nautilus_proof.py:39 | `max`: an element of the list that no element exceeds |
| NautilusProof.Min | python/nautilus_proof.py:40 | `min`: an element of the list that no element undercuts |
| NautilusProof.SumAtLeast | python/nautilus_proof.py:41 | n elements at least lo sum to at least n * lo |
| NautilusProof.SumAtMost | python/nautilus_proof.py:41 | n elements at most hi sum to at most n * hi |
| NautilusProof.SumLeftToRight | python/nautilus_proof.py:41 | the sum of the altitudes adds the last one last, as Python's `sum` accumulates left to right |
| NautilusProof.MeanBetween | python/nautilus_proof.py:41 | the mean lies between the minimum and the maximum |
| NautilusProof.Prefix | python/nautilus_proof.py:61 | `s[:n]` is the first min(n, len s) characters |
| NautilusProof.GenerateProof | python/nautilus_proof.py:24-69 | empty input gives the error record and any other input an altitude proof; that proof is valid iff every altitude <= 120, min and max are attained bounds, avg is the sum over the count and lies between them, the point count, verdict text, constraint, circuit and the hash layout |
| NautilusProof.VerifyProof | python/nautilus_proof.py:76-78 | the record's `valid` entry, false for the error record |
| NautilusProof.VerifyGenerated | python/nautilus_proof.py:34-78 | a generated proof verifies iff the flight is non-empty and never above 120 m |
| NautilusProof.FormatForChain | python/nautilus_proof.py:80-86 | the chain record copies hash, max altitude and verdict; the error record raises `KeyError` |
| NautilusProof.ChainAgreesWithVerify | python/nautilus_proof.py:80-86 | the chain record of a generated proof exists iff the flight is non-empty and carries the `verify_proof` verdict |
| NautilusProof.TestFlights | python/nautilus_proof.py:93-117 | the module's test flights: peak 117.8 m passes, a flight with 125.7 m fails |
| RealArith.Trunc | python/lora_sim.py:19 | `int()` of a float (and `Math.trunc`) truncates toward zero: the result is within 1 of x, on the side of 0 |
| LoRaSim.NatToString | python/lora_sim.py:19 | decimal digits, starting with 0 exactly for 0, which is written "0" |
| LoRaSim.IntToString | python/lora_sim.py:19 | a leading minus sign exactly for negatives, never followed by 0; a leading 0 only in "0" |
| LoRaSim.NatToStringRoundTrip | python/lora_sim.py:19 | a natural's decimal text reads back as that natural |
| LoRaSim.IntToStringRoundTrip | python/lora_sim.py:19 | an integer's decimal text reads back as that integer |
| LoRaSim.ChannelName | python/lora_sim.py:19 | "lora_" followed by the canonical decimal text of the truncated frequency, which reads back as it |
| LoRaSim.SameChannelIffSameMhz | python/lora_sim.py:19 | two frequencies share a channel iff their integer parts agree |
| LoRaSim.NewRadio | python/lora_sim.py:14-19 | the radio keeps frequency, power and bandwidth, has range 4.8 km and its channel name |
| LoRaSim.DefaultRadio | python/lora_sim.py:14-19 | the defaults 915 MHz, 20 dBm, 125 kHz with range 4.8 km, on channel "lora_915" |
| LoRaSim.SignalStrength | python/lora_sim.py:27-35 | the power at distance 0, otherwise power - (32.45 + 20 d + 20 f / 1000), which at any positive distance is below the power |
| LoRaSim.StrengthDecreasing | python/lora_sim.py:29-35 | from distance 0 on, further away is strictly weaker |
| LoRaSim.PayloadField | python/lora_sim.py:47 | a `bytes` payload becomes its lower-case hex text, which decodes back to it; every other value, `bytearray` included, passes unchanged |
| LoRaSim.Broadcast | python/lora_sim.py:37-56 | the packet carries the radio's channel and frequency, the payload field, the signal strength, SNR 10.5, the time, SF 7 and CR "4/5" |
| LoRaSim.Receive | python/lora_sim.py:58-72 | dropped on another channel or below -120 dBm (a missing rssi counts as -100); otherwise the same packet, or `KeyError` without a frequency |
| LoRaSim.MissingRssiPasses | python/lora_sim.py:66-67 | a packet on the channel without rssi is delivered |
| LoRaSim.BroadcastReception | python/lora_sim.py:42-72 | a broadcast is received iff the channels agree and its rssi is at least -120, and then arrives unchanged |
| LoRaSim.SameFrequencyReception | python/lora_sim.py:14-72 | radios on the same frequency receive each other's broadcasts iff the rssi is at least -120 |
| LoRaSim.DefaultBroadcastHeard | python/lora_sim.py:14-56 | a default radio broadcasting at the default 0.5 km arrives at -40.75 dBm and is received on every radio on "lora_915" |
| Hex.Encode | python/lora_sim.py:47 | `bytes.hex()`: two lower-case hex digits per byte |
| Hex.Decode | python/witness3.py:68 | `bytes.fromhex`: a text that decodes holds nothing but hex digits and ASCII whitespace, and exactly two digits per byte, so any other character or an odd number of digits gives `ValueError` |
| Hex.DecodeDigitPairs | python/witness3.py:68 | conversely, an even-length run of hex digits decodes to half as many bytes |
| Hex.DecodeEncode | python/witness3.py:68 | what `bytes.hex()` writes, `bytes.fromhex` reads back |
| WitnessNode.ExpectedHmac | python/witness3.py:42-48 | the hex digest over the message without its `hmac` key is ASCII |
| WitnessNode.VerifyHmac | python/witness3.py:40-49 | `TypeError` iff the received value is not ASCII text; a match iff it equals the expected digest |
| WitnessNode.HmacIgnoresOwnField | python/witness3.py:42-43 | the check works on a copy without `hmac`, so that entry never changes the verdict |
| WitnessNode.ReceivedHmac | python/witness3.py:62 | the message's `hmac` entry, or the empty text |
| WitnessNode.MissingHmacFails | python/witness3.py:62 | with 32-byte digests, a message without `hmac` fails the check |
| WitnessNode.Bump | python/witness3.py:54 | `+= 0.003` adds to numbers, counts booleans as 1 or 0, and raises `TypeError` on the rest |
| WitnessNode.NoiseFits | python/witness3.py:51-57 | `add_gps_noise` completes on a dictionary exactly when each present lat and lon is a number or a boolean |
| WitnessNode.ContainsIffOccurs | python/witness3.py:53-55 | `'lat' in text` holds exactly when the pattern occurs at some index of the text |
| WitnessNode.NoiseRaises | python/witness3.py:51-57 | the offset raises on null, booleans and numbers; on a dictionary exactly when a present lat or lon is neither a number nor a boolean; never on the empty list or on a text shorter than "lat" |
| WitnessNode.JsonDict.constructor | python/witness3.py:69 | a dictionary holding the decoded fields |
| WitnessNode.JsonDict.AddGpsNoise | python/witness3.py:51-57 | lat then lon are offset by 0.003 in place when present; no key is added and no other key changes; the same dictionary is returned, or `TypeError` after a partial update |
| WitnessNode.ResponseJson | python/witness3.py:85-92 | the reply dictionary has exactly the six keys type, witness_id, pubkey, signature, payload_hash and cid, each holding the matching response field |
| WitnessNode.ResponseJsonInjective | python/witness3.py:85-92 | distinct responses give distinct dictionaries |
| WitnessNode.DecodePayload | python/witness3.py:67-72 | a payload is decoded only when it is present hex text that parses as JSON; every other case is caught |
| WitnessNode.Sliceable | python/witness3.py:94 | `message['cid'][:16]` fails exactly on null, booleans, numbers and dictionaries |
| WitnessNode.TaskOutcome | python/witness3.py:59-95 | an exception escapes iff the HMAC check raises, or the HMAC matches, the payload decodes and then the GPS offset raises or `cid` is missing or cannot be sliced; `None` iff the HMAC mismatches or it matches and the payload does not decode; a response otherwise |
| WitnessNode.ProcessTask | python/witness3.py:59-95 | the guards in source order give the outcome `TaskOutcome` defines |
| WitnessNode.HmacMismatchDeclines | python/witness3.py:62-64 | a failed HMAC check declines whatever the payload is |
| WitnessNode.BadPayloadDeclines | python/witness3.py:67-72 | with a matching HMAC, missing, non-text, non-hex or non-JSON payloads are declined |
| WitnessNode.SignedRequiresChecks | python/witness3.py:59-95 | a signature needs a matching HMAC, a decodable payload and data the GPS offset accepts |
| WitnessNode.SignedResponse | python/witness3.py:78-92 | the response has type "witness_signature", witness id 3, the node's key, the message's cid, and hash and signature over the received payload bytes |
| WitnessNode.ResponseIgnoresParsedData | python/witness3.py:75-82 | the offset data never reaches the response: any two decodings the offset accepts give the same outcome |
| WitnessNode.ReplyTo | python/witness3.py:101-112 | at most one reply per incoming text; a reply is `json.dumps` of the response dictionary of a dictionary whose task is signed |
| WitnessNode.Replies | python/witness3.py:101-112 | no more replies than incoming texts |
| WitnessNode.ReplyExactlyForSignedTasks | python/witness3.py:105-109 | a reply is sent iff the text parses to a dictionary of type "new_task" whose task is signed |
| WitnessNode.RepliesAppend | python/witness3.py:101-112 | the replies to two batches of texts are the replies to each, in order |
| WitnessNode.HandleMessage | python/witness3.py:102-112 | one incoming text yields exactly the reply `ReplyTo` defines for it |
| WitnessNode.HandleConnection | python/witness3.py:97-112 | the texts sent are exactly the replies to the incoming texts, in order |

## Left out

- Rendering: canvas, Babylon and three.js scenes, particle systems, the HUD, the React markup. Only the values they display are modelled.
- Randomness: the drone jitter is a parameter of `GlobePage.GlobeView.Tick`. The 2D page's random drone movement and the random altitude and speed readouts are not modelled.
- Real time: timers are an ordered event sequence and intervals are explicit ticks, not wall-clock time. `broadcast`'s `time.time()` is a parameter.
- Interleaving: the replay interval of the globe page is modelled as running to its end. Its interleaving with drone ticks and witness callbacks is not modelled. Likewise the dashboard's fetch is one pending event.
- Wallet state: the connected account is a boolean.
- Cryptography and JSON: SHA-256, HMAC-SHA256, Ed25519, the key file, `json.dumps` and `json.loads` are function parameters.
- WitnessNode.ExpectedHmac: a JSON object is a `map`, which has no key order, and every JSON number is a `real`, so an int and an equal float are the same value. `json.dumps` writes keys in insertion order and `3` differently from `3.0`; the text the HMAC covers, and so the verdict, can depend on both, and the model cannot express that.
- Floats: altitudes, dBm, drone positions and coordinates are `real`. IEEE rounding, NaN and infinities are not modelled, nor are `round(..., 1)`, `round(..., 2)` and `toFixed`.
- LoRaSim.PayloadField: payloads are None, booleans, ints, floats, texts, `bytes`, `bytearray`, lists and dictionaries with text keys. Tuples, sets, dictionaries with other keys and other objects are not represented. They would pass through unchanged, like every value that is not `bytes`.
- LoRaSim.Receive: a `channel` or `rssi_dbm` entry of a type other than text and number is not modelled.
- LoRaSim.StrengthDecreasing: stated for frequencies and distances that are not negative only; the source accepts any float.
- NautilusProof.VerifyProof: only for the two records `generate_proof` builds, not for arbitrary dictionaries.
- NautilusProof.GenerateProof: the altitude values are not rounded to two decimals.
- NautilusProof.FormatForChain: returns the three chain entries as a record; the `json.dumps` text built from them is not modelled.
- Dashboard.WeightWidth: the stake weight `Math.log(stake + 1) * 10` is a parameter, because logarithms are not modelled.
- Scene.ToLower: lower-cases A-Z only, not the rest of Unicode.
- The Python `print` logging, the LoRa beacon loop, the websocket server and `start_server`, and the miner, immersive and test pages are not modelled.
- WitnessNode.HandleConnection: incoming websocket messages are texts; binary frames and a failing `send` are not modelled.
