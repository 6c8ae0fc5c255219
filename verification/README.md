# RabbitMQ exporter: reply parsers and scrape state, verified

`rabbitmq_exporter` reads the RabbitMQ management API and shows what it finds to Prometheus. This project
models its two hardest parts in Dafny and proves what they promise.

**Reply parsers.** The API answers in JSON or in BERT. `jsonmap.go` and `bertmap.go` flatten either
kind of reply into a map from dotted keys to numbers, with `_len` keys for array lengths, and pick label texts out of
each named object. The JSON side walks a typed tree. The BERT side must guess, from lists and tuples of one Go type,
what is an object and what is an array. Both are modelled as the in-place updates they are (`AddFields`,
`ParseProplist`, the reply classes). Each run is described by the *trace* of its visits (`FlatKeys`), and a trace is
related to the *leaves* of the document: what is stored, under which path, for which value. `Rendering` says when a
term stands for a document: at every object it may be a proplist or a map, with atom or string keys, behind any number
of `{struct, _}` layers. `Agreement` and `ListAgreement` then relate the two sides.

**Scrapes.** One scrape resets the exporter's gauges, runs the overview, runs every enabled module in an arbitrary
map order, and reports. State survives from scrape to scrape, and package-level metric maps are shared through
aliasing. Vectors, maps and modules are classes with those fields (`Gauges`, `Overview`, `Connections`, `Queue`,
`Memory`, `Exchange`, `Exporter`). Each `Collect` is proved against a function of the reply, the configuration and the
node info, and the channel records every sample sent, in order. What runs of scrapes keep is proved on that state
(`Overview`, `OverviewRuns`, `Scrapes`), and `Interleaving` splits scrapes and health reads into small steps under the
mutex.

| file | subject |
|---|---|
| `Decoder`, `Strings`, `Picks`, `FlatKeys`, `FinalWrites` | flat maps, splitting, picking, dotted keys, traces and writes |
| `JsonMap`, `BertMap`, `BertOrder` | the two parsers, their reply objects, and where iteration order matters |
| `Rendering`, `Agreement`, `ListAgreement` | when the parsers agree |
| `Disagreements` | concrete replies on which they do not |
| `Client` | what a module gets from a response |
| `Config`, `Gauges` | configuration, gauge vectors, the shared maps, the channel |
| `Overview`, `Queue`, `Connections`, `Memory`, `Exchange` | the modules |
| `OverviewRuns` | runs of overview responses |
| `Scrapes`, `Exporter`, `Interleaving` | one scrape, runs of scrapes, concurrent scrapes and health reads |

## Where the code does not do what it says

- "Fully compatible with JSON parser" (`bertmap.go:11-13`) is false. An array whose first element is a
  `{struct, ...}`-tagged object is taken for a proplist: its length is lost, and the element's numbers appear under a
  key `struct` (`TaggedHeadLosesLength`). A proplist with string keys is taken for an array (`TextKeysLoseMembers`).
  `SameLeavesIffFaithful` gives the exact condition for equal numbers at equal paths, for all documents and all
  renderings, and `MapsAgreeIff` the one for equal flat maps.
- Even for equal leaves the maps can differ, because an array `k` beside a number `k_len` writes one flat key
  twice and Go visits maps in no fixed order (`OneDocumentTwoMaps`). `JsonMap.OrderIndependence`,
  `UnambiguousIffNoClash` and `MapsAgreeIffUnambiguous` say exactly when this happens. A BERT map can also hold one
  printed key twice (`TwoKeysTwoMaps`); `BertOrder.OrderIndependence` is the exact condition for all terms.
- `GetString` finds bools, and nulls rendered as atoms, only in BERT (`BoolIsBertString`, exactly `StringsAgreeIff`).
  In lists, the JSON parser skips elements without `name` and `id` and the BERT parser does not, while the BERT parser
  drops elements with an unprintable label (`NumberAsLabel`, exactly `ElementsAgreeIff`). One element that is neither
  object nor null empties a JSON list and costs a BERT list only that element (`OneBadElement`, exactly
  `BrokenListsAgreeIff`).
- `decoder.go:20-27` promises empty results for malformed replies. Bytes that are not JSON give a *successful* empty
  reply; bytes that are not BERT give an error (`MalformedReplies`).
- The last known node, cluster and queue count are meant to stay when an overview cannot be had
  (`exporter.go:136`). A response that is not JSON, or decodes to no object, counts as a success and blanks them, which
  also switches the queue cut-off off (`NotJsonWipes`, exactly `InfoOfLastDecodedIff` and `CutOffIff`).
- A `{struct, _}` layer around a map makes it unreadable, and it is reported as an array of length 2
  (`TaggedMapUnreadable`).

## Model

| member | source | states |
|---|---|---|
| FlatKeys.WriteAllAt | jsonmap.go:95-111 | After any sequence of writes a flat key holds the value of the last write to it, and a key that was not written keeps its entry. |
| FlatKeys.ApplyOneMore | jsonmap.go:95-110 | Going on with one more visit, with its nested writes under the joined basename, equals listing all its dotted writes after the earlier ones. |
| FlatKeys.OrderIrrelevant | jsonmap.go:95-111 | Two orders of the same set of writes leave the same map if no flat key gets two different numbers. |
| FinalWrites.DecidedBy | jsonmap.go:95-111 | What a written flat key holds was decided by a leaf after which nothing with that key was written. |
| FinalWrites.FinalInTrace | bertmap.go:163-175 | A leaf has the last word in a traversal exactly when it has it in the last visit that writes its flat key. |
| FlatKeys.FlatteningFramed | jsonmap.go:90-111 | Flattening never removes an entry; under a non-empty basename it changes only keys that begin with the basename and a dot. |
| FlatKeys.SplitRecoversPath | jsonmap.go:91-94 | For non-empty dot-free names, splitting a dotted key at the dots gives the path back. |
| FlatKeys.FlatKeyRecovers | jsonmap.go:98-100 | The same with the length suffix: splitting gives the path with `_len` on its last name. |
| FlatKeys.FlatKeyInjective | jsonmap.go:91-100 | Two leaves with plain names share a flat key exactly when their suffixed paths are equal, so two of one kind only if their paths are equal. |
| Strings.SplitJoined | config.go:249 | Splitting two strings joined by the separator gives the pieces of both in order. |
| JsonMap.AddField | jsonmap.go:96-109 | One member: a number, a bool or an array length is stored under its dotted key, an object is descended into, anything else changes nothing. |
| JsonMap.AddFields | jsonmap.go:90-111 | The map object is updated in place by a traversal that visits every member of every nested object once, in some order, and writes numbers, bools and array lengths at their dotted keys. |
| JsonMap.TraceWritesLeaves | jsonmap.go:90-111 | Every traversal writes exactly the leaves found by path lookup: numbers, bools as 1 or 0, and lengths of arrays reached through objects only. |
| JsonMap.TraceEndingWith | jsonmap.go:95 | For every leaf some iteration order writes that leaf last. |
| JsonMap.OrderIndependence | jsonmap.go:90-111 | The result is the same for every iteration order of every nested map if and only if no flat key is written with two different numbers. |
| JsonMap.UnambiguousIffNoClash | jsonmap.go:98-100 | With plain member names that holds if and only if no array `k` sits beside a number `k_len` that differs from its length. |
| JsonMap.LeavesTellApartIff | jsonmap.go:91-100 | With plain member names, distinct leaves never share a flat key if and only if no number or bool `k_len` at all sits beside an array `k`. |
| JsonMap.ValueHasEntry | jsonmap.go:95-110 | In an unambiguous document, each number reached through objects is in the flat map under its dotted path, true as 1 and false as 0, and each array as its number of elements under the path with `_len`. |
| JsonMap.EntryHasValue | jsonmap.go:95-110 | In every document, every entry of the flat map is that of such a number, bool or array. |
| JsonMap.JsonReply.MakeMap | jsonmap.go:71-88 | An object gives the flat map of one traversal of it; null, any other value and undecodable bytes give the empty map. |
| JsonMap.JsonReply.MakeStatsInfo | jsonmap.go:23-68 | The list returned is one of the statistics lists that the next two rows describe. |
| JsonMap.StatsOfList | jsonmap.go:37-65 | For a list of objects and nulls: one entry for each object that has a `name` or an `id`, for no other element, in their order; each has a text for exactly the requested labels (a string, `true` or `false`, else empty) and the object's flat map. |
| JsonMap.StatsOfNoList | jsonmap.go:32-35 | Undecodable bytes, a reply that is no list, and a list with any other element give no entry at all. |
| JsonMap.JsonReply.ReadLabels | jsonmap.go:50-58 | For label lists with repeats: each label is the member's string, `true` or `false` for a bool, and empty otherwise. |
| JsonMap.JsonReply.GetString | jsonmap.go:113-134 | The answer is the member's string or not found, whatever was asked and cached before; the cache stays the decoded object. |
| BertMap.KeyedTuple | bertmap.go:192-205 | Succeeds exactly on a two-element list headed by an atom, and gives that atom's name and the second element, a strict subterm. |
| BertMap.ProplistPairs | bertmap.go:217-241 | Whatever number of struct layers is stripped, every pair found is a strict subterm, so the mutual recursion ends on every term. |
| BertMap.IterateBertKV | bertmap.go:69-100 | Fails exactly on what is neither a map nor a proplist; else hands out the pairs of a list in order, or those of a map in some order, leaving out what has no readable key. |
| BertMap.TraversalMembers | bertmap.go:69-100 | Every traversal hands out exactly the key-value pairs that are there. |
| BertMap.ParseProplist | bertmap.go:158-176 | Updates the map object by one traversal of the term; an error means the term is no object, and then the map is unchanged. |
| BertMap.TraceWritesLeaves | bertmap.go:158-176 | Every traversal writes exactly the leaves of the term, a leaf being a number or array length reached through pairs. |
| BertMap.LayersChangeNothing | bertmap.go:217-241 | Any number of struct layers around a non-empty proplist changes neither its pairs nor anything stored or visited. |
| BertMap.TaggedMapUnreadable | bertmap.go:217-254 | A struct layer around a map is read as no object, and stored as an array of length 2. |
| BertMap.BertReply.MakeMap | bertmap.go:47-56 | The flat map of one traversal of the reply; empty when the reply is no object. |
| BertMap.ParseSingleStatsObject | bertmap.go:105-154 | Succeeds exactly when the term is an object and every requested label in it can be printed; then labels and metrics are those of one traversal. |
| BertMap.StoreLabel | bertmap.go:115-125 | Keeps the text of a pair whose key is a requested label, once or repeated; fails exactly when that text cannot be printed. |
| BertMap.LastPairLabels | bertmap.go:110-125 | A requested label has the text of the last pair with its key, and is empty without one. |
| BertMap.StoreMetric | bertmap.go:127-148 | The object parser's own number and array tests store exactly what the generic parser stores for the same pair. |
| BertMap.ObjectMetricsAreGeneric | bertmap.go:105-176 | On any object, the maps the object parser can produce are exactly those the generic parser can produce on the same term with an empty basename. |
| BertMap.BertReply.MakeStatsInfo | bertmap.go:24-45 | One entry, in order, for each element that parses; elements that do not are left out; a reply that is no list gives none. |
| BertMap.BertReply.GetString | bertmap.go:324-347 | The text of the first visited pair with the key, not found if it cannot be printed or there is none. |
| BertMap.FirstPairAnswers | bertmap.go:329-342 | The first pair with the key answers with its text; there is no answer if it cannot be printed or there is none. |
| BertOrder.OrderIndependence | bertmap.go:86-96 | For every term, map and basename, the result is the same for every iteration order of every nested map if and only if no two leaves that may decide one flat key hold different numbers; in a list only the last pair that writes the key may decide it, in a map any. |
| BertOrder.UnambiguousIsSettled | bertmap.go:158-176 | For every term it is enough that no flat key is written with two different numbers. |
| BertOrder.TwoKeysTwoMaps | bertmap.go:86-96 | A map that holds `a` both as an atom and as a string can be read as two different flat maps. |
| BertOrder.TwoPairsOneMap | bertmap.go:76-84 | A list with the same two pairs is just as ambiguous, but always gives the second number. |
| Rendering.ObjectVisits | bertmap.go:58-100 | Whichever of the encodings an object is rendered in, the BERT parser visits only its members, each at most once, with a value that renders the member. |
| Rendering.SeenIffPlain | bertmap.go:189-241 | It can read the object and sees all its members if and only if the keys of a proplist are atoms and no map is tagged. |
| Rendering.SameLeavesIffFaithful | bertmap.go:11-13 | For every document and every rendering of it (proplists with atom or string keys, maps, any layers), both parsers store the same numbers at the same paths if and only if no array is taken for an object, no inner object for an array, and every member that is not seen stores nothing. |
| Agreement.MapsAgreeIff | bertmap.go:47-56 | For every document and every term, all BERT maps equal all JSON maps under all iteration orders if and only if both write the same flat keys and the leaves that may decide a flat key hold the same number. |
| Agreement.MapsAgreeIffUnambiguous | bertmap.go:47-56 | For a faithful rendering, every BERT map equals every JSON map under all iteration orders if and only if no flat key gets two different numbers. |
| Agreement.MapsAgree | bertmap.go:11-13 | With plain names, no array beside a differing `_len` number, and a faithful rendering, the two metric maps are equal. |
| Agreement.MapsAgreeIffFaithful | bertmap.go:11-13 | Where flat keys tell all leaves apart, the maps are equal if and only if the rendering is faithful. |
| Agreement.StringsAgreeIff | bertmap.go:324-347 | The string lookups agree if and only if the member is absent, is a string that is seen, or is neither a string nor printed by the BERT parser. |
| Agreement.ElementsAgreeIff | bertmap.go:105-154 | For every object, every rendering and every label list, the element contributes the same to both lists under all iteration orders if and only if both keep it with agreeing labels and numbers, or both leave it out. |
| Agreement.CompatibleAgrees | bertmap.go:105-154 | For a named, readable, faithful element with plain names and agreeing labels that is so. |
| ListAgreement.StatsAgree | bertmap.go:24-45 | For every list of objects and nulls and every label list with repeats, both parsers give the same statistics in the same order when each element agrees; one for each element when all are named. |
| ListAgreement.StatsAgreeIff | bertmap.go:24-45 | The lists agree wherever they are cut off if and only if each element agrees. |
| ListAgreement.BrokenListsAgreeIff | jsonmap.go:32-35 | With an element that is neither object nor null, JSON gives nothing at all, so the lists agree if and only if BERT keeps none of the elements. |
| Disagreements.TaggedHeadLosesLength | bertmap.go:217-254 | A concrete document and rendering on which JSON gives `a_len` and BERT gives `a.struct.x` instead. |
| Disagreements.TextKeysLoseMembers | bertmap.go:192-205 | A concrete rendering with string keys on which JSON gives `arguments.k` and BERT gives `arguments_len`. |
| Disagreements.OneDocumentTwoMaps | jsonmap.go:95-100 | The document with `a` an array of one element and `a_len` 5 can be read as 1 and as 5 under `a_len`. |
| Disagreements.BoolIsBertString | bertmap.go:300-309 | A bool asked for as a string is not found in JSON and is `true` in BERT. |
| Disagreements.NumberAsLabel | bertmap.go:115-125 | A named object with a number under a requested label is kept with an empty label by JSON and dropped by BERT. |
| Disagreements.OneBadElement | jsonmap.go:32-35 | A list with a number beside a named object is empty in JSON and not in BERT. |
| Client.GetStatsInfo | rabbitClient.go:115-126 | A failed request or undecodable BERT is an error; otherwise the list that the content type's parser gives. |
| Client.GetMetricMap | rabbitClient.go:128-142 | The same for flat maps. |
| Client.FetchOverview | exporter_overview.go:75-91 | The flat map and the four strings of one overview response, read through a reply object that caches its decoding. |
| Client.MalformedReplies | decoder.go:16-41 | For lists, maps and the overview alike, a response that does not decode to what is asked for gives the promised empty result exactly when it reached a parser; a failed request and bytes that are not BERT give an error instead. |
| Client.SameStats | decoder.go:12-15 | Modules that work on lists get the same list whichever format the API answered in, when each element agrees. |
| Client.OverviewsAgreeIff | decoder.go:12-15 | Node info and overview metrics are the same whichever format the API answered in, under all iteration orders, if and only if the numbers agree and each of the four strings reads the same, an unseen one as empty. |
| Config.ParseCapabilities | config.go:247-258 | The result is `bert` and `no_sort` as far as they occur, trimmed, between the commas, and nothing else. |
| Config.TrimSpaceTrims | config.go:251 | Trimming cuts off white space at both ends, all of it, and nothing else. |
| Config.BlanksAreIgnored | config.go:251 | Blanks, tabs and line ends around a piece make no difference. |
| Config.SelfLabel | config.go:265-273 | The label is `lb` exactly behind a load balancer; otherwise `1` exactly for the answering node itself and `0` exactly for others. |
| Config.JoinedCapabilities | config.go:247-258 | Parsing `a,b` enables exactly what parsing `a` or parsing `b` enables. |
| Gauges.GaugeMap.Exclude | exporter_connections.go:36-42 | The shared map loses exactly the excluded names, in place, and keeps all other series. |
| Gauges.GaugeMap.CollectAll | exporter_queue.go:234-236 | Sends each series of each vector exactly once, in some order. |
| Gauges.PlotAt | exporter_queue.go:185-190 | A vector has a series exactly for the label tuples set on it, with the last value set. |
| Gauges.PlotDistinct | exporter_queue.go:185-190 | With distinct label tuples there is exactly one series for each point, with that point's value. |
| Overview.Truncated | exporter_overview.go:92 | The queue count is the reply's number rounded toward zero, on both sides of zero. |
| Overview.ExporterOverview.constructor | exporter_overview.go:54-69 | Node info starts empty and the shared map loses exactly the excluded names. |
| Overview.ExporterOverview.Collect | exporter_overview.go:75-113 | A failure changes no state and sends nothing; a success moves to the next overview state and sends the version series and every gauge series once. |
| Overview.ExporterOverview.SetPresent | exporter_overview.go:98-104 | Each gauge whose key the reply carries is left with one series, under the new cluster; the others keep theirs. |
| Overview.InfoOfMostRecent | exporter_overview.go:86-95 | Over any run, each of node, cluster and both versions is the string of that name in the most recent reply that reached a parser (a blank one included), the queue count its number rounded toward zero or 0, and the one version series is labelled with rabbitmq version, erlang version, node and cluster. |
| Overview.NothingReplied | exporter_overview.go:75-84 | A run in which every request failed or gave bytes that are not BERT leaves the whole state as it was. |
| Overview.GaugeOfMostRecent | exporter_overview.go:98-104 | Over any run, a gauge holds one series: the value and, as its only label, the cluster name of the most recent reply that carried its key. |
| Overview.GaugeNeverCarried | exporter_overview.go:98-104 | A gauge whose key no reply carried keeps what it had. |
| Overview.AtMostOneSeries | exporter_overview.go:98-104 | Over any run, an overview gauge that started empty never holds more than one series. |
| Connections.ExporterConnections.constructor | exporter_connections.go:33-48 | The shared map loses exactly the excluded names; the state vector is new. |
| Connections.ExporterConnections.Collect | exporter_connections.go:50-89 | On failure nothing is touched or sent; on success every vector holds the totals of this reply alone, whatever it held, and every series is sent once. |
| Connections.ExporterConnections.AddMetrics | exporter_connections.go:70-77 | From cleared vectors, the in-place additions, in any metric order, give each metric's totals. |
| Connections.MetricSeries | exporter_connections.go:70-77 | A metric has a series exactly for the tuples cluster, vhost, node, peer host, user, self of the connections that carry it. |
| Connections.StateSeries | exporter_connections.go:79-82 | The state vector has a series exactly for the tuples cluster, vhost, node, peer host, user, state, self of the connections. |
| Connections.SeriesIsSum | exporter_connections.go:70-82 | Each series is the sum of the connections' own values of the metric, or their number for states, over those with exactly its labels; absent series stand for zero. |
| Connections.GrandTotal | exporter_connections.go:70-77 | All series of a metric together are the sum of its values over all connections that carry it. |
| Connections.StatesCountConnections | exporter_connections.go:79-82 | The state series add up to the number of connections. |
| Connections.OrderOfConnectionsIrrelevant | exporter_connections.go:70-82 | Permuting the connections of a reply changes no series. |
| Queue.QueuePackage.Exclude | exporter_queue.go:82-94 | All three package maps lose exactly the excluded names, in place. |
| Queue.ExporterQueue.constructor | exporter_queue.go:77-103 | The exporter holds the package's own map objects, from which the excluded names are gone. |
| Queue.ExporterQueue.Collect | exporter_queue.go:125-241 | Fails exactly on a missing queue count that is needed, or a failed request below the limit. Failure or a count above the limit leaves no series and sends nothing; otherwise the vectors depend only on this reply, config, node info and live names, and counters and series are sent. |
| Queue.ExporterQueue.RecordLimit | exporter_queue.go:217-227 | A limit written through the package-level map is the one that the exporter's own map holds; an excluded limit is not written. |
| Queue.ExporterQueue.SendCounters | exporter_queue.go:192-198 | One sample for each live counter, 0 where the reply lacks it. |
| Queue.AfterQueuesIsVectors | exporter_queue.go:166-229 | The queue-by-queue updates from cleared vectors give the table of all included queues. |
| Queue.IncludedInOrder | exporter_queue.go:166-180 | The queues taken are those whose vhost and name pass the four filters, each once, in the order of the reply. |
| Queue.StateIsShown | exporter_queue.go:200-215 | With distinct names, each such queue has a state series labelled cluster, vhost, name, durable, policy, self, state, where `running` becomes `idle` when its idle time can be read, and an idle series with that time exactly then. |
| Queue.MetricIsShown | exporter_queue.go:182-190 | It has a series in each live gauge exactly when the reply carries the metric, with that number and those six labels. |
| Queue.LimitsAreShown | exporter_queue.go:217-227 | Each live limit shows the lowest of the two members it is named by, and nothing when there is none or one is negative. |
| Queue.OnlyPassingQueuesShown | exporter_queue.go:166-227 | Every series on any vector has a vhost and a name that pass the four filters, and the six labels of a queue of the reply. |
| Queue.CountersSent | exporter_queue.go:192-198 | A counter sample is sent if and only if it is that of a live counter and a queue of the reply that passes the filters, with the reply's number, or 0 without one. |
| Queue.VectorSamplesMember | exporter_queue.go:231-238 | What is sent at the end are the series of the limits, the gauges, the states and the idle times. |
| Queue.SeriesOfQueue | exporter_queue.go:185-227 | With distinct vhost and name, each included queue has on each vector (gauges, state, idle time, both limits) exactly the series its own reply calls for, with that value, or none. |
| Queue.NoOtherSeries | exporter_queue.go:185-227 | Every series on any of these vectors belongs to an included queue that calls for it. |
| Queue.OneStatePerQueue | exporter_queue.go:200-215 | There are exactly as many state series as included queues. |
| Queue.GaugeColumn | exporter_queue.go:185-190 | What a scrape leaves on a gauge is the plot of that gauge's points over the included queues. |
| Queue.LimitIsLowest | exporter_queue.go:105-123 | The limit shown is the lowest of the limits present; none is shown exactly when there is none or one is negative. |
| Queue.CounterRunSize | exporter_queue.go:192-198 | Exactly included queues times live counters samples are sent. |
| Queue.CounterRunMembers | exporter_queue.go:192-198 | They are the counters of the included queues, and no others. |
| Queue.CounterRunUnique | exporter_queue.go:192-198 | With distinct vhost and name no counter is sent twice for one label tuple. |
| Queue.ConstructAll | exporter_queue.go:77-103 | Exporters constructed one after the other on one package, with any exclusion lists, all see the same live names, so the earlier ones lose what is excluded for the later ones. |
| Queue.ExclusionsAccumulate | exporter_queue.go:77-94 | These live names are the initial ones minus every name excluded by any of the constructions. |
| Memory.ExporterMemory.constructor | exporter_memory.go:135-149 | The shared map loses exactly the excluded names. |
| Memory.ExporterMemory.Collect | exporter_memory.go:151-186 | Succeeds exactly when the node list and every node's reply were had. When the n-th node fails, the gauges hold the nodes before it but nothing is sent; whatever they held before is gone. |
| Memory.SeriesOfNode | exporter_memory.go:169-180 | With distinct node names, each node has a series under cluster, node and self exactly for the metrics that its own reply carries, with those values. |
| Memory.NoOtherNode | exporter_memory.go:169-180 | Every series is that of a node whose reply carries the metric, under these labels. |
| Exchange.ExporterExchange.constructor | exporter_exchange.go:36-50 | The shared map loses exactly the excluded names. |
| Exchange.ExporterExchange.Collect | exporter_exchange.go:52-87 | On failure nothing is sent; on success, for some order of the live metrics, the samples of that order. |
| Exchange.ExactlyTheWanted | exporter_exchange.go:63-84 | For every metric order, a sample is sent if and only if it has the value of a live metric of an exchange whose vhost and name pass the four filters, labelled cluster, vhost, name. |
| Exchange.NothingTwice | exporter_exchange.go:63-84 | With distinct vhost and name no metric is sent twice for one label tuple. |
| Scrapes.AfterModulesIsPartial | exporter.go:106-111 | Whatever the order in which the modules return, the exporter's state is the one that their outcomes determine. |
| Scrapes.AfterEveryScrape | exporter.go:90-164 | After every scrape of every run: `module_up` has exactly the series (cluster, node, name) for each module and the overview, with the current cluster and node, 1 for success and 0 for failure; one `up` series, 1 iff every `module_up` is 1 iff the scrape counts as OK iff all succeeded; durations under the same tuples exactly when cluster and node are not empty. |
| Scrapes.InfoOfRun | exporter.go:136-146 | Over any run of scrapes, cluster, node and queue count are those in the most recent overview reply that reached a parser, a blank one included. |
| OverviewRuns.NotJsonWipes | jsonmap.go:18-20 | A response that is not JSON, or is a BERT number, blanks node, cluster and queue count, and the scrape still counts as OK. |
| OverviewRuns.RunOfResponses | exporter_overview.go:75-104 | After any run of responses, the state is the one after the last that decoded to an object, with the node's identity wiped if a blank success came later. |
| OverviewRuns.InfoOfLastDecodedIff | exporter_overview.go:86-92 | Node info is that of the most recent response that decoded to an object, or that of the start, if and only if no blank success came after it, or that info is blank itself. |
| OverviewRuns.NothingDecodedIff | exporter_overview.go:75-95 | A run in which no response decoded to an object leaves the whole state as it was if and only if every response failed, or the identity was wiped already. |
| OverviewRuns.CutOffIff | exporter_queue.go:135-149 | The queue cut-off is on if and only if no blank success came after the most recent decoded response and its count exceeds a positive limit. |
| OverviewRuns.InfoOfScrapesIff | exporter.go:136-146 | The same over runs of whole scrapes, whatever the other modules do. |
| OverviewRuns.DocumentNames | exporter_overview.go:86-95 | A JSON overview sets node, cluster and versions, and the labels of the version series, to the document's own strings of those names, or to empty. |
| OverviewRuns.DocumentCount | exporter_overview.go:92 | The queue count is the document's number `queues` under `object_totals`, rounded toward zero. |
| OverviewRuns.DocumentGauge | exporter_overview.go:98-104 | An overview gauge holds the document's number at its dotted path, labelled with the document's cluster name alone. |
| Exporter.CollectModule | exporter.go:48-51 | Every module is all-or-nothing: one that fails has sent nothing, one that succeeds has sent what this scrape's replies call for. |
| Exporter.EnabledModules | exporter.go:54-59 | Exactly the enabled names that have a factory get a module. |
| Exporter.Exporter.constructor | exporter.go:53-69 | A new exporter has the enabled modules, no series on any of its three vectors, and has recorded a good last scrape. |
| Exporter.Exporter.CollectWithDuration | exporter.go:132-164 | The module runs with the node info as it is now; its success decides its `module_up` series; nothing else of the exporter changes, nor the names of other modules. |
| Exporter.Exporter.PartsGiveOutcome | exporter.go:106-111 | The reports of a complete scrape, in any module order, amount to one outcome determined by the API and the new node info. |
| Exporter.Exporter.Collect | exporter.go:90-130 | One scrape from any state: the next state is that function of the old state and the API, for every module order. Each module reports once, under the node info after this scrape's overview. What is sent is the overview's samples, each module's batch, empty for a failed one and for queues over the limit, and the exporter's own series once each. |
| Interleaving.StepKeeps | exporter.go:71-130 | Every step of every thread keeps mutual exclusion, the state seen by the lock holder, and the correctness of all answers so far. |
| Interleaving.ScrapesAreAtomic | exporter.go:90-92 | In every interleaving at most one thread is inside, and with the lock free the state is that of the completed scrapes one after the other. |
| Interleaving.HealthReadsAreComplete | exporter.go:67-75 | In every interleaving a health read answers the outcome of the last scrape completed before it, or true if there was none; never a partial one. |

## Left out

- HTTP, TLS, `main.go`, `curl.go`, signals, the Windows service, logging, help strings, `BuildInfo`, and
  `initConfig`'s copying of environment variables: plumbing.
- Wire decoding by gobert and `encoding/json`: the parsers start from the decoded term or document. A failed decode is
  a case of the input (no document, no term). Unhashable map keys in BERT are not part of this model.
- The width of numbers: `parseFloaty`'s conversions are one number constructor and floats are reals, so rounding,
  overflow, NaN and infinities are not captured; neither is the overflow of a queue count beyond `int`.
- The regular expression engine: a filter is an arbitrary set of matched names.
- `parseTime`: an arbitrary partial function from texts to seconds.
- Which endpoint each module asks for, with which labels, and the tables of metric names: a module gets the statistics
  of its list, and any set of names.
- The node, federation, shovel and aliveness modules: they appear in the exporter only as modules that fail or succeed
  with arbitrary samples; they follow the pattern of the modules that are modelled.
- `Describe`, gauge type checks and duplicate detection inside the Prometheus client: a vector is a map from label
  tuples to numbers.
- The elapsed times of `module_scrape_duration_seconds` are arbitrary; only which of them are shown is modelled.
- The vectors inside a package-level map are reached only through it, so `GaugeMap` keeps their series in itself; a
  vector that is held on to after its key was deleted is not captured.
- Modules of one exporter must not share vectors with one another (`Exporter.Exporter.Valid`), as is the case for the
  registered ones. Two exporters alive at once on the same package maps are covered only for their names
  (`Queue.ConstructAll`).
- The mutex is modelled by `Interleaving`, on the functions that `Exporter.Exporter.Collect` is proved against; the
  class itself is sequential.
- Agreement.MapsAgreeIffFaithful: asks that flat keys tell the leaves of both sides apart, because an unfaithful
  rendering can otherwise happen to give the same map; Agreement.MapsAgreeIff asks nothing.
- ListAgreement.StatsAgree: goes one way, because two lists whose elements differ can happen to be equal as a whole;
  ListAgreement.StatsAgreeIff gives both directions for lists cut off anywhere.
- Queue.SeriesOfQueue, Queue.StateIsShown, Queue.MetricIsShown, Queue.LimitsAreShown, Queue.OneStatePerQueue, Queue.CounterRunUnique, Exchange.NothingTwice and Memory.SeriesOfNode:
  assume distinct names, which RabbitMQ guarantees; Gauges.PlotAt says what a vector holds when they repeat.
