# Blockchain infrastructure decentralization metrics — a Dafny model

The repository measures how decentralized the infrastructure of several
blockchains is. Per-chain scrapers collect the chain's nodes into a JSON
document of `ip -> {is_validator, stake, address, extra_info}`. An
aggregation engine then looks up each node's ASN and geolocation. It
counts nodes, validators and stake per hosting provider, per continent and
per country, and per datacenter of the tracked providers. Flow counts these
per node role as well. It then turns the counts into percentages. For
Cosmos chains, a Go crawler walks the peer-to-peer network and serves the
nodes it finds over HTTP, and two scripts build a seed list from an address
book and join crawled nodes to the staking validators.

This project models:

- the engine's `Blockchain`/`FlowBlockchain`, `Provider`, `Datacenter` and `Country`
  classes, as Dafny classes whose methods update their fields
  (`chains.dfy`, `providers.dfy`, `datacenters.dfy`, `countries.dfy`);
- the initial count tables (`initial_values.dfy`) and the node records
  with their stake coercion and Flow roles (`records.dfy`);
- the per-node lookup, provider and country steps (`analysis_utils.dfy`);
- the generic and Flow counting and percentage passes (`analysis.dfy`);
- the command-line set-up of the engine (`setup.dfy`);
- the Flow, NEAR, Solana and Aptos scrapers' record building
  (`flow_scraper.dfy`, `near.dfy`, `solana.dfy`, `aptos.dfy`);
- the Cosmos address-book and validator-identification scripts
  (`cosmos_analysis.dfy`);
- the crawler's URL normalisation and database keys (`crawl.dfy`), its
  configuration (`config.dfy`) and its HTTP handlers (`server.dfy`).

`ordered_dicts.dfy` models a Python dictionary whose insertion order
matters. `strings.dfy`, `sums.dfy`, `indexes.dfy` and `wrappers.dfy` are
shared helpers.

Network lookups, DNS, the chains' RPC and CLI output, ping output and
decoders are parameters of the operations that use them. Files, JSON
encoding and printing are not modelled.

## Model

| member | source | states |
|---|---|---|
| Datacenters.SameDatacenterNotTransitive | classes/Datacenter.py:25-28 | the 0.2-degree tolerance of `__eq__` makes datacenter equality non-transitive: three datacenters exist with a = b, b = c and a ≠ c |
| Datacenters.SameDatacenterReflexive | classes/Datacenter.py:25-28 | every datacenter is equal to itself under `__eq__` |
| Datacenters.SameDatacenterSymmetric | classes/Datacenter.py:25-28 | `__eq__` is symmetric: a equals b exactly when b equals a |
| Datacenters.StoreRecord | classes/Datacenter.py:34-54 | the stored record keeps the node's address, validator flag and extra info; it has a stake exactly when the node is a validator, and that stake is the coerced stake (0 for a falsy stake) |
| Datacenters.SavedNodes | classes/Datacenter.py:30-54 | saving a node adds its IP to the stored IPs; every IP already stored keeps its record, and a new IP gets the stored record of the node |
| Datacenters.Datacenter.constructor | classes/Datacenter.py:4-18 | a new datacenter has its place and provider, zero counters and no stored nodes, and its counters agree with its records |
| Datacenters.Datacenter.SaveDatacenterNode | classes/Datacenter.py:30-54 | the stored records become `SavedNodes` of the old ones: an IP already stored changes nothing; a new IP is stored with its record and bumps the validator or non-validator count and the cumulative stake; the counters stay equal to the sums over the stored records |
| Datacenters.Datacenter.GetDatacenterData | classes/Datacenter.py:56-68 | the report's node total is the number of stored nodes and equals validators plus non-validators; its stake share times the provider's total is 100 times the cumulative stake; place and coordinates are the datacenter's own |
| Providers.AddStake | classes/Provider.py:30-45 | a generic chain adds the stake to the scalar; on Flow an active validator's stake goes only to its role's active part and an inactive one's only to its role's total, and every other role is untouched |
| Providers.GuardedShare | classes/Provider.py:59-74 | the share is 0 when the total is 0 and otherwise satisfies share × total = 100 × part |
| Providers.UpdatedCounts | classes/Provider.py:27-53 | an IP already counted changes nothing; a new IP joins the counted IPs and is counted once, as a validator with its coerced stake added through `AddStake` (per role and activity on Flow) or as a non-validator; the two counts keep adding up to the counted IPs |
| Providers.UpdatedCountsIdempotent | classes/Provider.py:27-29 | counting the same IP twice is counting it once, whatever record comes with it the second time |
| Providers.Provider.constructor | classes/Provider.py:9-22 | a new provider has zero counters, no seen IPs and no datacenters; its stake is the per-role zero table on Flow and 0 elsewhere |
| Providers.Provider.UpdateTotals | classes/Provider.py:27-53 | the counters, stake and counted IPs change exactly as `UpdatedCounts` says, and the datacenters do not change |
| Providers.Provider.AddDatacenter | classes/Provider.py:22 | the datacenter is appended to the provider's list and nothing else changes |
| Providers.Provider.GetTotalNodes | classes/Provider.py:94-98 | the total is the sum of the stored-node counts of all datacenters |
| Providers.Provider.GetDataCenterNodes | classes/Provider.py:100-108 | one report per datacenter, in list order, each the datacenter's own report against the provider's stake |
| Providers.Provider.StakeShare | classes/Provider.py:57-74 | "Percentage of total stake" is the guarded share of the scalar stake, or on Flow of each role's total against the chain's total for that role |
| Countries.Country.constructor | classes/Country.py:10-23 | a new country has its name and code, no cities, no stored nodes and zero counters |
| Countries.Country.AddCity | analysis/utils.py:89 | the city joins the country's set of cities; a city already there changes nothing |
| Countries.Country.SaveCountryNode | classes/Country.py:28-52 | an IP already stored changes nothing; a new IP is stored with its record and bumps the validator or non-validator count and the cumulative stake; the counters stay equal to the sums over the stored records and the cities are untouched |
| Countries.Country.Report | classes/Country.py:65-79 | the report's node total is the number of stored nodes and equals validators plus non-validators; its cumulative stake is the sum of the stored stakes; its share times the chain's stake is 100 times the cumulative stake |
| AnalysisUtils.ResolveLocation | analysis/utils.py:29-37 | a location exists exactly when the geo lookup answered and its country code has a name in the registry, and it carries that name, the code, city, region and coordinates |
| AnalysisUtils.ResolveProvider | analysis/utils.py:43-44 | a registered ASN gives the registry's provider; otherwise the name the ASN lookup gave is kept |
| AnalysisUtils.FirstSame | analysis/utils.py:64-65 | the index found is that of the first place equal (within the tolerance) to the new one; None means no place in the list is equal |
| AnalysisUtils.SavedAt | analysis/utils.py:70 | saving a node to datacenter i changes only that datacenter's records, to `SavedNodes` of them; its place and every other datacenter are kept |
| AnalysisUtils.AddNodeStores | analysis/utils.py:60-70 | the datacenter step on values keeps every datacenter in its place with everything it stored, adds at most one datacenter, and leaves the node stored in the first datacenter equal to the new one |
| AnalysisUtils.FirstSameAppend | analysis/utils.py:64-67 | when no datacenter is equal to the new one, after appending it the lookup finds the appended one |
| AnalysisUtils.AddNodeIdempotent | analysis/utils.py:60-70 | adding a node at the same place twice keeps the first record and creates no second datacenter |
| AnalysisUtils.TrackedProvider | analysis/utils.py:56-58 | a tracked provider found for a name is one of the provider objects |
| AnalysisUtils.IpAsnLookup | analysis/utils.py:9-25 | a successful lookup gives its ASN and "Other" and records nothing; a failed one gives no ASN and "Unidentified" and records the IP with its node among the unidentified ASNs |
| AnalysisUtils.IpGeoLookup | analysis/utils.py:27-39 | a resolved location is returned as is; a failed lookup, including an unknown country code, gives the "Unidentified" location at 0, 0 and records the IP among the unidentified locations |
| AnalysisUtils.AddToTrackedProvider | analysis/utils.py:60-71 | the datacenters become `AddNode` of the old ones (the node goes to the first equal datacenter, or to a new one appended at the end holding only this node; the others keep their records), and the counters, stake and counted IPs change as `UpdatedCounts` says |
| AnalysisUtils.SaveToDatacenter | analysis/utils.py:70 | the chosen datacenter stores the node unless its IP is there already, as `SavedAt` says; every other datacenter, the provider's list and its counters are unchanged |
| AnalysisUtils.SaveToNewDatacenter | analysis/utils.py:67-70 | a new datacenter at the place, holding only the node, is appended; the existing datacenters and the counters are unchanged |
| AnalysisUtils.SaveToFirstSame | analysis/utils.py:60-70 | the datacenters become `AddNode` of the old ones, and the counters are unchanged |
| AnalysisUtils.AddToTrackedAmong | analysis/utils.py:56-71 | the chosen tracked provider's datacenters become `AddNode` of the old ones and its counters `UpdatedCounts` of the old ones; every other tracked provider is unchanged |
| AnalysisUtils.EnsureProviderBucket | analysis/utils.py:47-53 | a zeroed bucket is added for a provider that has none; an existing bucket is kept as is |
| AnalysisUtils.ProviderAnalysis | analysis/utils.py:41-74 | the returned name is the registry's provider for a registered ASN, else the incoming name; only a registered ASN creates a missing zeroed bucket; for a registered ASN the node reaches exactly the tracked provider of that name (none otherwise), whose datacenters become `AddNode` of the old ones and whose counters become `UpdatedCounts` of the old ones; every other tracked provider is unchanged |
| AnalysisUtils.CountryAnalysis | analysis/utils.py:76-90 | a zeroed country bucket is created when absent; a tracked country code adds the city to that country and stores the node there unless its IP is stored already, and every other tracked country is unchanged; an untracked code changes no tracked country |
| AnalysisUtils.EnsureCountryBucket | analysis/utils.py:78-84 | a zeroed bucket is added for a country that has none; an existing bucket is kept as is |
| InitialValues.ZeroBucket | classes/dict_initial_values.py:3-8 | a generic bucket starts with all four totals at zero and no percentages |
| InitialValues.FlowTotalStake | classes/Provider.py:6-20 | the Flow stake table starts with every role's active and total stake at zero |
| InitialValues.ZeroFlowBucket | classes/dict_initial_values.py:37-46 | a Flow bucket starts with every role pair at zero, no nodes, no inactive nodes and no percentages; its stake is a per-role table of zero pairs where the source has one flat pair (see "Left out") |
| InitialValues.ProvidersInit | classes/dict_initial_values.py:2-15 | the provider table starts with exactly "Other" and "Unidentified", both zero |
| InitialValues.LocationInit | classes/dict_initial_values.py:18-33 | the location table starts with exactly one "Unidentified" continent, zero, holding exactly one "Unidentified" country, zero |
| InitialValues.ProvidersInitFlow | classes/dict_initial_values.py:36-57 | the Flow provider table starts with exactly "Other" and "Unidentified", both zero Flow buckets |
| InitialValues.LocationInitFlow | classes/dict_initial_values.py:60-83 | the Flow location table starts with exactly one zero "Unidentified" continent holding exactly one zero "Unidentified" country |
| Records.ParseRole | analysis/analysis.py:78-79 | a role name parses only to the role whose name it is; any other name has no role |
| Records.Bump | analysis/analysis.py:85-98 | the role's active and total counters grow by the given amounts, every other role is unchanged, and the active and total sums over the roles grow by the same amounts |
| Chains.Pct | classes/Blockchain.py:38 | `part * 100 / total` by true division: the share times the total is 100 times the part |
| Chains.WithShares | classes/Blockchain.py:33-41 | only the percentages change; the stake, validator and node shares times the chain's totals are 100 times the bucket's counts; the non-validator share is written only when the chain has non-validators, and otherwise the bucket keeps what it had |
| Chains.ShareAll | classes/Blockchain.py:32-41 | every bucket of the dictionary gets its shares, and the keys stay the same |
| Chains.ShareContinents | classes/Blockchain.py:31-54 | every continent gets its shares, and so does every country nested in it; the keys at both levels stay the same |
| Chains.Blockchain.constructor | classes/Blockchain.py:10-27 | a new report has zero totals, no unidentified IPs, the seeded provider and location tables and no country buckets, and it is tallied |
| Chains.Blockchain.CalculatePercentages | classes/Blockchain.py:29-56 | every provider bucket, every continent bucket and every nested country get their shares; no key and no counter changes |
| Chains.SharesKeepSums | classes/Blockchain.py:29-56 | the percentage pass leaves the node, validator, non-validator and stake sums of a dictionary unchanged, so a tallied report stays tallied |
| Chains.RoleShares | classes/Blockchain.py:128-146 | each role's share is that role's part over that role's total, times 100 |
| Chains.FlowWithShares | classes/Blockchain.py:110-150 | only the percentages change: active and total role shares divide by the chain's role counters; each role's stake share divides the bucket's role total by the chain's role active stake; the active-node share divides by the chain's active nodes; the node share divides by the chain's nodes |
| Chains.FlowSharesKeepTallies | classes/Blockchain.py:108-150 | the Flow percentage pass leaves every counter as it was, so a tallied Flow report stays tallied |
| Chains.FlowChain.constructor | classes/Blockchain.py:77-92 | a new Flow report has the given date, zero role counters and node counts, the per-role zero stake table and the seeded Flow buckets, and it is tallied |
| Chains.FlowChain.ReturnNodeTypeQuantities | classes/Blockchain.py:94-100 | the five role names, and only they, give a counter pair, and each gives its own role's pair |
| Chains.FlowChain.CalculateProviderPercentages | classes/Blockchain.py:108-150 | every provider bucket gets its Flow shares, and the keys stay the same |
| Chains.FlowChain.CalculateCountryPercentages | classes/Blockchain.py:200-240 | exactly the named country of the named continent gets its Flow shares |
| Chains.FlowChain.CalculateContinentPercentages | classes/Blockchain.py:154-198 | the continent's own bucket and each of its countries get their shares; every other continent is unchanged |
| Chains.FlowChain.CalculateLocationPercentages | classes/Blockchain.py:152-198 | every continent, and every country nested in it, gets its Flow shares; the keys stay the same |
| Chains.FlowContinentsSharedIff | classes/Blockchain.py:152-240 | a continent table holds every continent's and nested country's Flow shares, with the same keys at both levels, exactly when it is `ShareFlowContinents` of the table before the pass |
| Chains.FlowChain.CalculatePercentages | classes/Blockchain.py:103-106 | the provider pass and then the location pass: every provider, continent and nested country gets its Flow shares |
| Analysis.CountedSums | analysis/analysis.py:125-143 | counting a node in one bucket raises that dictionary's node, validator, non-validator and stake sums by exactly what the root totals gain |
| Analysis.ZeroBucketKeepsSums | analysis/utils.py:47-84 | creating a zeroed bucket for a missing provider or country leaves every sum of the dictionary unchanged |
| Analysis.WithKey | analysis/utils.py:47-53 | the key is present afterwards, the other keys and buckets are kept, a missing key gets the zeroed bucket, and a present key leaves the dictionary as it was |
| Analysis.CountAllSums | analysis/analysis.py:114-143 | counting the nodes one by one adds to each root total the sum of the nodes' contributions: stake of validators, validators, non-validators, and one per node |
| Analysis.RecordMissingKeys | analysis/utils.py:18-37 | an IP is recorded as unidentified exactly when it already was or some node has it and its lookup fails; with distinct IPs the record is that node |
| Analysis.CountKeepsTallies | analysis/analysis.py:121-143 | counting a node under its provider and its country, creating either bucket zeroed when missing, keeps the report tallied: each axis still sums to the root totals, and nodes are validators plus non-validators everywhere |
| Analysis.CountNode | analysis/analysis.py:124-143 | the node is counted in its provider's bucket, its country's bucket and the root totals, as a validator with its stake or as a non-validator |
| Analysis.LookupAndProvider | analysis/analysis.py:115-121 | the provider is the registry's for a registered ASN, else "Other" or "Unidentified" by whether the ASN lookup succeeded; the location is the resolved one or the unidentified one; failed lookups record the node; the tracked objects stay usable |
| Analysis.CountryStep | analysis/analysis.py:122 | only the country's bucket may be created, zeroed; the tracked objects stay usable |
| Analysis.CountryAndCount | analysis/analysis.py:122-143 | the country step followed by the count: the root totals gain the node, and so do the provider's bucket and the country's bucket |
| Analysis.AnalyzeNode | analysis/analysis.py:114-143 | one iteration: the provider and country named by the lookups each have their bucket created if needed and count the node; the root totals count it; failed lookups record it; nothing else of the report changes |
| Analysis.CountNext | analysis/analysis.py:114-143 | one iteration keeps the report tallied and changes its root totals by exactly that node |
| Analysis.CountAll | analysis/analysis.py:114-143 | every node of the document is counted once, in order: the report stays tallied, its root totals are the fold of the nodes, and exactly the nodes whose lookups fail are recorded |
| Analysis.WithSharesShared | classes/Blockchain.py:38-41 | after the percentage pass a bucket's stake, validator and node shares are its counts over the chain's totals |
| Analysis.GetGeneralNetworkProviderDistribution | analysis/analysis.py:112-146 | the root totals grow by the number of nodes and by the sums of their validators, non-validators and stakes; the report stays tallied; failed lookups are recorded; the pass succeeds exactly when the stake, validator and node totals are non-zero, and then every provider bucket, every continent bucket and every nested country carry their shares |
| Analysis.SharePass | analysis/analysis.py:146 | the percentage pass runs exactly when its three denominators are non-zero, leaves the report tallied, and gives every provider bucket, every continent and every nested country its shares; otherwise it fails with a zero division and changes nothing |
| Analysis.FlowRole | analysis/analysis.py:78-84 | a role is read only when "role" is present and is one of the five role names and "is_active" is present; the result is that role and that activity |
| Analysis.FirstFlowFailure | analysis/analysis.py:78-84 | no failure exactly when every node's role reads; otherwise the failure is that of the first node whose role does not read |
| Analysis.FlowCountAllNodes | analysis/analysis.py:100 | when every role reads, the Flow pass counts exactly one more node per node |
| Analysis.FlowCountAllRoles | analysis/analysis.py:98 | each role's node total grows by the number of nodes of that role |
| Analysis.FlowCountedSums | analysis/analysis.py:84-105 | counting a Flow node keeps its bucket tallied and raises the dictionary's node, inactive, active-stake and total-stake sums exactly as the root's |
| Analysis.FlowCountKeepsTallies | analysis/analysis.py:60-105 | counting a Flow node under its provider, creating the bucket zeroed when missing, keeps the Flow report tallied |
| Analysis.FlowZeroKeepsTallies | analysis/analysis.py:60-70 | creating a zeroed Flow provider bucket keeps the report tallied |
| Analysis.FlowCountInBucket | analysis/analysis.py:84-105 | counting a Flow node in an existing bucket keeps the report tallied |
| Analysis.FlowLookupAndProvider | analysis/analysis.py:41-75 | a failed ASN lookup records the node and names the provider "Unidentified", a successful one "Other" unless the registry names it; only a registered ASN may create the provider's bucket, zeroed |
| Analysis.FlowProviderStep | analysis/analysis.py:56-75 | the provider is the registry's for a registered ASN; its bucket is created zeroed when absent; exactly the tracked provider of that name counts the node, its role counters and per-role stake changing as `UpdatedCounts` says and its datacenters unchanged; no other tracked provider changes |
| Analysis.UpdateTrackedAmong | analysis/analysis.py:73-75 | the tracked provider's counters, per-role stake and counted IPs change as `UpdatedCounts` says with the node's role, its datacenters do not change, and the other tracked providers are unchanged |
| Analysis.CountFlowNode | analysis/analysis.py:84-105 | the node is counted in its provider's bucket and in the root counters under its role: always in the totals, in the active parts only when active, as inactive otherwise |
| Analysis.FlowAnalyzeNode | analysis/analysis.py:39-105 | one Flow iteration: the named provider's bucket, created if needed, and the root counters count the node under its role with its stake; a failed ASN lookup records it |
| Analysis.FlowCountNext | analysis/analysis.py:39-105 | one Flow iteration keeps the report tallied and changes its root counters by exactly that node |
| Analysis.FlowCountAll | analysis/analysis.py:39-105 | the nodes are counted in order until the first whose role does not read, whose failure is returned; when none fails the root counters are the fold of all nodes and exactly the nodes whose ASN lookup fails are recorded |
| Analysis.FirstFlowFailureAt | analysis/analysis.py:78-84 | when node i is the first whose role does not read, the pass's failure is node i's |
| Analysis.FlowWithSharesShared | classes/Blockchain.py:128-150 | after the Flow percentage pass a bucket carries its role, stake, active-node and node shares |
| Analysis.FlowStart | classes/Blockchain.py:82-88 | a new Flow report counts no node in any role |
| Analysis.GetFlowNetworkProviderDistribution | analysis/analysis.py:34-110 | a new Flow report is built: a node whose role does not read stops it with that failure; otherwise it succeeds exactly when every Flow denominator is non-zero, and a zero one fails with a zero division; on success its counters are the fold of all nodes, it is tallied, the unidentified nodes are recorded, every provider bucket carries its shares and the continent table is `ShareFlowContinents` of the seeded one |
| Analysis.FlowCountAndShare | analysis/analysis.py:39-108 | the Flow loop and then the percentage pass, with the same outcomes as the whole Flow analysis: the first role failure, else success exactly when the denominators are non-zero, and then the folded counters, the recorded nodes, every provider's shares and the continent table `ShareFlowContinents` of the one before |
| Analysis.FlowSharePass | analysis/analysis.py:108 | the Flow percentage pass runs exactly when every Flow denominator is non-zero, and gives every provider bucket, every continent and every nested country its shares, the continent table becoming `ShareFlowContinents` of the old one; otherwise it fails with a zero division and changes nothing |
| Analysis.GetNetworkProviderDistribution | analysis/analysis.py:11-32 | a missing timestamp or node table stops the analysis; the timestamp becomes the analysis date; Flow gets a new Flow report with every outcome of `GetFlowNetworkProviderDistribution` (the first role failure, success exactly when the denominators are non-zero, and then the report the Flow pass describes); any other chain is counted into the report it came with, with every outcome of `GetGeneralNetworkProviderDistribution` (totals, recorded lookups, success exactly when the denominators are non-zero, and then provider, continent and country shares) |
| Setup.AllowedFromSpec | utilities/setup.py:5-13 | a code is allowed exactly when some registry entry has it as its upper-cased short code, and it names the provider of the last such entry |
| Setup.LoadConfigFilesAndGetAllowedProviders | utilities/setup.py:5-13 | the allowed-provider table is the one `AllowedFrom` describes for the registry, in registry order |
| Setup.FirstIndex | utilities/setup.py:18 | the index found holds the element and no earlier position does |
| Setup.RemoveFirst | utilities/setup.py:43 | `list.remove`: the list loses one element, at the first occurrence, and keeps every other element in order |
| Setup.RemoveFirstMultiset | utilities/setup.py:43 | removing the first occurrence takes exactly one copy of the element out of the list's multiset |
| Setup.StripExtension | utilities/setup.py:19 | a name of five characters or more is the result followed by its last five characters; a shorter name gives the empty name |
| Setup.GetBlockchainNames | utilities/setup.py:15-19 | the folder fails (ValueError) exactly when it has no "sample.json"; otherwise there is one name per other file |
| Setup.BlockchainNamesFromFiles | utilities/setup.py:15-19 | every file other than the removed "sample.json" gives its chain name, and every chain name comes from a file of the folder |
| Setup.TrackedProviders | utilities/setup.py:80-93 | the codes of a `--providers` value succeed exactly when every upper-cased code is allowed; otherwise the error names the first code that is not |
| Setup.TrackedProvidersKeys | utilities/setup.py:83-93 | after success the table holds exactly the old codes and the new upper-cased codes |
| Setup.TrackedProvidersNamed | utilities/setup.py:83-93 | after success the table's codes stay distinct and each names its allowed provider |
| Setup.TrackedCountries | utilities/setup.py:97-110 | the codes of a `--countries` value succeed exactly when every upper-cased code is a known country; otherwise the error names the first code that is not |
| Setup.TrackedCountriesTable | utilities/setup.py:100-110 | after success the table holds exactly the old codes and the new upper-cased codes, each new one under its country's name |
| Setup.ArgStep | utilities/setup.py:50-110 | an argument succeeds only when it splits on "=" into exactly two parts whose first is a supported command; failures are the format, command, chain, provider and country errors; what is gathered stays allowed; only "--blockchain" sets the chain, to its value |
| Setup.ArgsFold | utilities/setup.py:50-110 | the loop succeeds only when every argument is well formed with a supported command, keeps what is gathered allowed, and stops at the first failing argument with its error |
| Setup.ArgsFoldTarget | utilities/setup.py:68-76 | a chain once set stays set; any "--blockchain" argument sets one; a chain the loop sets is the value of such an argument |
| Setup.Remaining | utilities/setup.py:26-43 | without "--output" anywhere in the joined arguments the rest is unchanged; with it only inside another argument the removal fails; otherwise exactly one "--output" is taken out |
| Setup.ParseArguments | utilities/setup.py:21-112 | as written: "--help" anywhere gives the usage; a missing "sample.json" fails; no "--blockchain" substring fails; on success the chain is a known chain set by a "--blockchain=<chain>" argument, the providers and countries are allowed under their names, and the output flag is whether "--output" occurs in the joined arguments |
| Setup.TargetUnboundAsWritten | utilities/setup.py:69-76 | the command line `main.py --help=--blockchain` passes the mandatory-flag check but sets no chain, so the chain is read unbound |
| Setup.ParseArgumentsChecked | utilities/setup.py:31-34 | as intended: a command line that sets no chain is refused as missing "--blockchain", never with an unbound chain; every other outcome is as written, and a success names a chain some argument set |
| Setup.GetArguments | utilities/setup.py:21-112 | the step-by-step argument parsing gives exactly the corrected result `ParseArgumentsChecked` |
| Setup.ArgsLoop | utilities/setup.py:50-110 | the loop over the arguments gives exactly the fold `ArgsFold` from nothing gathered |
| Setup.ApplyArgument | utilities/setup.py:51-110 | one pass of the loop gives exactly `ArgStep` |
| Setup.TrackProviders | utilities/setup.py:83-93 | the `--providers` loop gives exactly `TrackedProviders` |
| Setup.TrackCountries | utilities/setup.py:100-110 | the `--countries` loop gives exactly `TrackedCountries` |
| OrderedDicts.Put | utilities/setup.py:93 | `d[k] = v` on an insertion-ordered dictionary: an existing key keeps its place and takes the new value, a new key goes at the end, and the key set gains `k` |
| OrderedDicts.PutGet | utilities/setup.py:93 | writing a key keeps the keys distinct; reading it back gives the value written, and every other key reads as before |
| OrderedDicts.FirstKeyWithValue | analysis/utils.py:56-57 | `list(d.keys())[list(d.values()).index(v)]`: None exactly when no entry has the value, otherwise the key of the first entry that has it |
| FlowScraper.MapRoles | flow/flow_nodes.py:157 | the role column goes through the role map: success exactly when every code is in the map, and then each row has only its role replaced; otherwise the error names the first code missing from the map |
| FlowScraper.DigitRun | flow/flow_nodes.py:87 | the run of digits from a position is all digits and ends at the end of the text or at a non-digit |
| FlowScraper.DigitRunBounds | flow/flow_nodes.py:87 | any run of digits from a position is at most as long as the maximal run there, and equals it when a non-digit ends it |
| FlowScraper.DotGroup | flow/flow_nodes.py:87 | a group found before a '.' is one to three digits followed by '.' |
| FlowScraper.LastGroup | flow/flow_nodes.py:87 | the last group found is one to three digits |
| FlowScraper.DotGroupUnique | flow/flow_nodes.py:87 | a group of one to three digits followed by '.' is exactly the one `DotGroup` finds |
| FlowScraper.LastGroupLongest | flow/flow_nodes.py:87 | the greedy last group is at least as long as any last group the pattern allows there |
| FlowScraper.MatchAtComplete | flow/flow_nodes.py:87-88 | every match of `\d{1,3}\.\d{1,3}\.\d{1,3}\.\d{1,3}` at a position is found there, with the same first three groups and a last group at least as long |
| FlowScraper.FirstFrom | flow/flow_nodes.py:88 | the scan of `re.search` returns the leftmost start position where the matcher succeeds, with its result; None means it succeeds nowhere |
| FlowScraper.GetIPAddress | flow/flow_nodes.py:84-89 | the address is "Unknown" or the text of a match of the pattern in the ping output |
| FlowScraper.GetIPAddressUnknown | flow/flow_nodes.py:84-89 | the address is "Unknown" exactly when the pattern matches nowhere in the ping output |
| FlowScraper.SearchFindsLeftmost | flow/flow_nodes.py:88 | the search stops at the leftmost match, with that match's first three groups |
| FlowScraper.GetIPAddressLeftmost | flow/flow_nodes.py:84-89 | when the pattern matches, the address is the text of the leftmost match with the longest last group allowed there |
| FlowScraper.FirstWithKey | flow/flow_nodes.py:163 | for every row there is a first row with the same IP, no later than it |
| FlowScraper.GroupByIP | flow/flow_nodes.py:163 | the first row's IP is grouped, under the record of the first row |
| FlowScraper.GroupByIPSpec | flow/flow_nodes.py:92-114 | the grouped nodes are keyed by exactly the rows' IPs, and each is the record of the first row with its IP |
| FlowScraper.Finalize | flow/flow_nodes.py:175-184 | a node is edited exactly when it carries a string role that has a minimum and a string id |
| FlowScraper.FinalizeAll | flow/flow_nodes.py:175-184 | the final pass succeeds exactly when every node can be edited, keeps the set of IPs, and otherwise fails with the unknown-role error |
| FlowScraper.FinalizeNodes | flow/flow_nodes.py:175-184 | the in-place loop over the nodes gives exactly `FinalizeAll`, in whatever order it visits them |
| FlowScraper.FlowNodesFirstRow | flow/flow_nodes.py:154-184 | each output node is the edited record of the first row, after the role map, with its IP |
| FlowScraper.FlowNodes | flow/flow_nodes.py:154-184 | an empty staking table fails (the frame has no "role" column); then a role code missing from the map fails with that code; otherwise the scraper succeeds exactly when every grouped node's role has a minimum and an id, and fails with the unknown-role KeyError of :179 otherwise; on success the output holds exactly the grouped IPs, the first row's among them |
| FlowScraper.FlowNodesSpec | flow/flow_nodes.py:92-184 | each output node comes from the first row with its IP: a validator with that row's stake, the node id as its address, the networking address as its domain, the mapped role, and active exactly when its stake reaches that role's minimum |
| CosmosAnalysis.EligibleNoColon | cosmos/analysis/parse-addressbook.py:13-14 | an address-book entry may seed exactly when its IP holds no ':' and its last success is not the zero time |
| CosmosAnalysis.SeedsOf | cosmos/analysis/parse-addressbook.py:9-17 | the seed list is no longer than the book, and each seed is `id@ip` of an eligible entry |
| CosmosAnalysis.ParseAddressbook | cosmos/analysis/parse-addressbook.py:9-17 | the seed list is `SeedsOf` of the book: `id@ip` of the first eligible entry of each IP, in book order |
| CosmosAnalysis.KeptIffUnseen | cosmos/analysis/parse-addressbook.py:14-17 | the loop's test on an entry (eligible and IP not yet seen) holds exactly when it is the first eligible entry with its IP, and the seen set grows by eligible IPs only |
| CosmosAnalysis.SeedsFromFirsts | cosmos/analysis/parse-addressbook.py:13-16 | every seed is `id@ip` of the first eligible entry with its IP |
| CosmosAnalysis.EligibleSeeded | cosmos/analysis/parse-addressbook.py:13-17 | every eligible entry's IP is seeded by the first eligible entry with that IP, which comes no later |
| CosmosAnalysis.FirstsSeeded | cosmos/analysis/parse-addressbook.py:13-17 | the seed of every first eligible entry of an IP is in the list |
| CosmosAnalysis.Filter | cosmos/analysis/check_tmcrawl_for_validators.py:47-56 | the filtered list is no longer than the input and holds only elements with the property |
| CosmosAnalysis.FilterMembers | cosmos/analysis/check_tmcrawl_for_validators.py:47-56 | an element is kept exactly when it is in the input and has the property |
| CosmosAnalysis.SeenOfKeys | cosmos/analysis/check_tmcrawl_for_validators.py:24-44 | the seen-by-IP dictionary's keys are exactly the IPs of the crawled nodes that have one |
| CosmosAnalysis.SeenOfDistinct | cosmos/analysis/check_tmcrawl_for_validators.py:36-44 | each IP is a key of the seen dictionary only once |
| CosmosAnalysis.SeenOfOwnIP | cosmos/analysis/check_tmcrawl_for_validators.py:36-44 | every seen entry carries its own IP as its "ip" |
| CosmosAnalysis.CleanNodes | cosmos/analysis/check_tmcrawl_for_validators.py:16-56 | the seen dictionary is `SeenOf` the nodes; the clean list is the nodes with an IP, in order; the id, address, pubkey and voting-power lists are the clean nodes with that field set |
| CosmosAnalysis.SeenPubKeysFrom | cosmos/analysis/check_tmcrawl_for_validators.py:88 | every entry of the pubkey lookup is a seen node whose key bytes are that key |
| CosmosAnalysis.LastWithKey | cosmos/analysis/check_tmcrawl_for_validators.py:88 | for every element there is a last element with the same key, no earlier than it |
| CosmosAnalysis.AsMap | cosmos/analysis/check_tmcrawl_for_validators.py:16-36 | the seen dictionary as a map has exactly its keys |
| CosmosAnalysis.JoinReady | cosmos/analysis/check_tmcrawl_for_validators.py:88-101 | the node found under a public key was seen at its IP, so the join never indexes a missing IP |
| CosmosAnalysis.IdentifyFold | cosmos/analysis/check_tmcrawl_for_validators.py:91-110 | the top identified IPs are among all identified IPs, and the seen map gains no keys other than identified IPs |
| CosmosAnalysis.IdentifyFoldMembers | cosmos/analysis/check_tmcrawl_for_validators.py:94-110 | an IP is identified exactly when some validator's consensus key is the key bytes of the node seen at that IP, and among the top validators exactly when such a validator's key is also in the top set |
| CosmosAnalysis.IdentifyValidators | cosmos/analysis/check_tmcrawl_for_validators.py:91-110 | the join loop gives exactly `IdentifyFold`, and the seen map keeps its keys |
| Crawl.ParseURL | cosmos/crawl/util.go:119-137 | an address `url.Parse` rejects gives ""; otherwise the host holds no "@", no ":" and no "//" |
| Crawl.TrimmedAvoids | cosmos/crawl/util.go:126-131 | cutting after the last "@", then after the last "//", then before the first ":" leaves none of the three separators |
| Crawl.ParseURLIdempotent | cosmos/crawl/util.go:119-137 | trimming an already trimmed host gives it back |
| Crawl.NodeKey | cosmos/crawl/node.go:98-101 | a node key is the "node/" prefix followed by the address, and nothing else |
| Crawl.LocationKey | cosmos/crawl/node.go:103-106 | a location key is the "location/" prefix followed by the address, and nothing else |
| Crawl.KeySameIP | cosmos/crawl/node.go:55-58 | two nodes are stored under the same key exactly when they have the same IP |
| Crawl.NodeKeyInjective | cosmos/crawl/node.go:98-101 | distinct addresses give distinct node keys |
| Crawl.NodeKeyNotLocationKey | cosmos/crawl/node.go:98-106 | no node key is a location key |
| Config.DefaultDataDir | cosmos/config/config.go:74-76 | the default data directory is never empty |
| Config.Validate | cosmos/config/config.go:31-42 | a configuration is valid exactly when it has at least one seed and a non-empty ipstack key; the only error is `Invalid` |
| Config.WithDefaults | cosmos/config/config.go:62-76 | after the defaults no defaulted field is zero; a non-zero field is kept; the path, seeds and ipstack key are untouched |
| Config.WithDefaultsIdempotent | cosmos/config/config.go:62-76 | applying the defaults to a defaulted configuration changes nothing |
| Config.ParseConfig | cosmos/config/config.go:46-79 | an empty path fails with `EmptyConfigPath` before anything is read; a read or decode failure returns the zero configuration with that error; otherwise the zero fields take their defaults and the result carries its own validation |
| Server.DigitValue | cosmos/server/handler.go:53 | a decimal digit's value is at most 9 and is zero only for '0' (the digit step of `strconv.Atoi`) |
| Server.DigitsValue | cosmos/server/handler.go:53 | a run of digits has value zero exactly when every digit is '0' |
| Server.Atoi | cosmos/server/handler.go:53-63 | the value `strconv.Atoi` leaves when its error is ignored: when the digits after the sign exceed the unsigned 64-bit range, the 64-bit bound of the sign whatever follows them (the range error comes first); otherwise 0 for text that is not a signed decimal; always within the 64-bit range |
| Server.AtoiPositive | cosmos/server/handler.go:52-70 | a page or limit query is accepted exactly when it has no '-' sign and either its leading digits overflow, whatever follows them, or it is a decimal with at least one non-zero digit |
| Server.LeadingDigits | cosmos/server/handler.go:53 | the digits `strconv.ParseUint` reads before it meets a non-digit: a prefix of the text, all digits, followed by a non-digit or the end |
| Server.AtoiOverflowBeforeJunk | cosmos/server/handler.go:52-70 | twenty or more nines followed by a non-digit are not a decimal, yet `Atoi` gives the largest 64-bit integer, so `?page=99999999999999999999x` is accepted |
| Server.LeadingDigitsStop | cosmos/server/handler.go:53 | the leading digits of a digit run followed by a non-digit are that run |
| Server.DecodePrefixSpec | cosmos/server/handler.go:76-88 | the iteration keeps the decoded nodes in order up to the first value that does not decode, and reports a failure exactly when some value does not decode |
| Server.CollectNodes | cosmos/server/handler.go:72-88 | the callback loop yields the decoded prefix and the failure flag, with `total` equal to the number of nodes kept |
| Server.QueryValue | cosmos/server/handler.go:46-70 | an absent query takes its default; a present one is accepted exactly when it parses to a positive number, and then its value is that number |
| Server.GetNodes | cosmos/server/handler.go:44-117 | a bad page is refused first, then a bad limit, then a node that does not decode; after those the handler lists a page exactly when `paginate` returns a negative bound or bounds inside the list, and panics exactly otherwise; a listed page carries the parsed page and limit, a total equal to the number of stored nodes, and the nodes sliced by `paginate` (none for a negative bound) |
| Server.GetNode | cosmos/server/handler.go:129-155 | the lookup is 404 exactly when the address's node key is absent; a stored value that does not decode is a 400 "failed to decode node"; a node is returned exactly when the stored value decodes, and it is the decoded one |
| Near.CutAtColon | near/index.js:191 | with a ':' the result is the text before the first ':' (a proper prefix holding no ':'); without one it is empty, as `substring(0, -1)` is |
| Near.NodeUrl | near/index.js:89-90 | the RPC address ends in the default port `:3030` and starts with the host before the first ':' of the peer address, or is the bare port when the address has no ':' |
| Near.RecordFirstSeen | near/index.js:106-128 | recording peers or producers keeps the value first seen for each key and adds the keys not seen before |
| Near.KeyedAtMembers | near/index.js:186-193 | the validators filed under a key are exactly those whose looked-up IP key is that key |
| Near.MergeFold | near/index.js:194-214 | the merge has no more entries than there are validators |
| Near.MergeFoldHasKey | near/index.js:206-214 | an IP has an output entry exactly when some validator is filed under it |
| Near.MergeFoldKeys | near/index.js:186-214 | the output's keys are exactly the IP keys of the validators, with "null" for an unknown peer id and "undefined" for a peer without an address |
| Near.MergedSnoc | near/index.js:206-211 | a further validator at an IP adds its stake to the entry and appends its peer id to the other addresses, creating that list on the second validator |
| Near.MergeFoldEntry | near/index.js:176-215 | each entry holds the summed stake of the validators at its IP, the first one's peer id as its address, and the later ones' peer ids in order as other addresses |
| Near.MergeFoldTotal | near/index.js:194-214 | the entries' stakes add up to the stakes of all validators: each stake lands in exactly one entry |
| Near.MergeOne | near/index.js:179-214 | one pass of the merge loop is the merge step of the specification |
| Near.MergeValidators | near/index.js:174-216 | the loop builds the merged entries, its total is the sum of the stakes, and that total equals the sum of the entries' stakes |
| Solana.GossipIP | solana/solana-node-scraper.py:73 | a gossip node is filed under the text of its gossip address before the first ':' |
| Solana.SolanaCli.constructor | solana/solana-node-scraper.py:44-46 | the three lookups start empty |
| Solana.SolanaCli.GetGossip | solana/solana-node-scraper.py:71-74 | the nodes up to the first without a gossip address are stored by IP without their gossip field, a later node overwriting an earlier one; success exactly when every node has one; the other lookups are unchanged |
| Solana.SolanaCli.RunValidators | solana/solana-node-scraper.py:89-91 | the validators up to the first without a usable identity key are stored under that key without it, a later one overwriting an earlier one; the other lookups are unchanged |
| Solana.SolanaCli.RunValidatorInfo | solana/solana-node-scraper.py:104-106 | each entry's info is stored under its identity key, up to the first entry missing either field; the other lookups are unchanged |
| Solana.SolanaCli.ValidatorInfo | solana/solana-node-scraper.py:112-127 | the info exists exactly when the validator has the six fields read; it holds exactly those six keys, renamed, plus `details` exactly when validator info was published, with the stake and delinquency copied from the validator |
| Solana.GossipLookupSpec | solana/solana-node-scraper.py:71-74 | an IP is in the gossip lookup exactly when some node has it; its record is such a node without the gossip field, and it is the last node with that IP |
| Solana.ValidatorsLookupSpec | solana/solana-node-scraper.py:89-91 | a key is in the validator lookup exactly when some validator has it, and its record is such a validator without its identity key |
| Solana.NodeFor | solana/solana-node-scraper.py:196-213 | a node's record carries its pubkey as the address and is a validator's exactly when the pubkey is a validator's; a validator gets its info and stake plus its balance, any other node stake 0 and only its balance |
| Solana.GetIPs | solana/solana-node-scraper.py:190-217 | the scrape succeeds exactly when every gossip node's record can be built, and then holds one record per gossip IP, namely that record |
| Aptos.TreatIP | aptos/aptos.py:4-19 | an address falls through to nothing exactly when it has a protocol segment that is neither `ip4` nor `dns`; a returned domain always resolves to the returned IP |
| Aptos.TreatIPv4 | aptos/aptos.py:5-8 | an `ip4` multiaddress yields its host as the IP and no domain |
| Aptos.TreatDns | aptos/aptos.py:11-19 | a `dns` multiaddress yields the resolved address with the host name, or ends the run when the name does not resolve |
| Aptos.TreatOther | aptos/aptos.py:4-19 | a multiaddress of any other protocol yields nothing |
| Aptos.TreatNoSlash | aptos/aptos.py:5-7 | a text without '/' has no protocol segment and raises an IndexError |
| Aptos.FullnodeField | aptos/aptos.py:74-78 | without fullnode addresses the field is ""; otherwise it is present exactly when the first fullnode address can be treated |
| Aptos.ValidatorEntry | aptos/aptos.py:64-90 | a validator without a network address ends the run; otherwise the fullnode field's error, then the first address's error, then an address that yields nothing (an unpack error) ends it, and exactly the other validators give an entry: filed under the IP the first address yields, a validator record with its voting power and account address and the four extra fields, the domain (or null), the validator index, the treated fullnode field and the consensus key |
| Aptos.ProcessAll | aptos/aptos.py:61-92 | on success every validator gave an entry and its IP has an entry in the table |
| Aptos.ProcessAllErrStays | aptos/aptos.py:61-92 | once the loop ends on a validator, the later validators change nothing |
| Aptos.ProcessAllOutcome | aptos/aptos.py:61-92 | the run succeeds exactly when every validator gives an entry, and otherwise ends with the error of the first one that does not |
| Aptos.ProcessAllEntries | aptos/aptos.py:85-90 | on success an IP has an entry exactly when some validator yields it, and the entry is that of the last such validator |
| Aptos.ProcessValidator | aptos/aptos.py:62-90 | one pass of the loop gives the validator's entry, in the order the checks are made |
| Aptos.CollectValidators | aptos/aptos.py:54-92 | the loop's result is the run over all validators: the IP table or the first error |

## Left out

- File, network and subprocess I/O: reading the configuration and node JSON files, pickling (`SaveObject`), the `OutputJSONInfo` writes and printing. Their inputs are parameters and their outputs are the returned values.
- The ASN and geolocation lookups, DNS resolution, `url.Parse`, the NEAR and Solana RPC calls, the Solana and Aptos CLI output, `ping`, the stored-node decoder and `paginate`. Each is an input or a function parameter.
- Unit scaling is not modelled: lamports to SOL, yoctoNEAR to NEAR, Aptos voting power divided by 1e8, and Python's `int(float(...))` on stakes. Stakes are whole numbers, and shares are exact reals rather than floating point.
- `Blockchain` never defines `countriesData` (classes/Blockchain.py:10-27), yet analysis/utils.py:78 and analysis/analysis.py:129 use it. The model gives every report a country table that starts empty.
- analysis/analysis.py:108 and :146 call `CalculatePercentages` with an argument that classes/Blockchain.py:29 and :103 do not take. The model calls it without one.
- `flow_total_stake` is imported (classes/Blockchain.py:7, classes/Provider.py:6) but not defined in utilities/dict_initial_values.py. The model uses a per-role table of zero active and total stake.
- InitialValues.ZeroFlowBucket: every Flow provider, continent and country bucket starts with one flat "Total Stake" pair `{"active", "total"}` (classes/dict_initial_values.py:43, :53, :67), and analysis/analysis.py:67, :90 and :104 create and update that flat pair. But classes/Blockchain.py:112-116, :156-160 and :202-206 read it per role (`["Total Stake"]["execution"]["total"]`), which on such a bucket is a KeyError. The model keeps stake per role and activity in every Flow bucket, so the percentage passes can run; the flat pair of the source is the sum over the roles.
- analysis/analysis.py:86 and :99 add Flow stake to a flat `totalStake["active"]`, while classes/Blockchain.py:142 divides by the stake of each role. The model keeps the report's stake per role as well; the flat figure is the sum over the roles.
- Records.CoerceStake: stakes reach the model already coerced, None for a null or falsy stake and otherwise a whole number. The raw JSON value, its truthiness test and the `int(float(...))` conversion (classes/Provider.py, classes/Datacenter.py, analysis/analysis.py:80) are not modelled, so the coercion states nothing of its own.
- analysis/analysis.py:50 writes to `unidentifiedIPs`, which the report does not have. The model records those IPs in `unidentifiedASNs`.
- analysis/analysis.py:75 calls `SaveProviderNode`, which `Provider` does not define. The model uses `UpdateTotals` with the node's role.
- Analysis.FlowCountAll: the model reads a node's role before its ASN lookup and provider step, while analysis/analysis.py:41-84 reads it after them. A node whose role does not read therefore never reaches the lookup, its recording in the unidentified table or the tracked-provider update in the model; in the source those happen and then the KeyError ends the analysis, so the report they changed is never returned.
- analysis/analysis.py:126 converts stake with `int()` where the classes use `int(float())`. Both are modelled as the same whole-number coercion.
- The initial-value dictionaries are shared by reference in the source. The model gives every bucket its own zeroed copy.
- Datacenters.Datacenter.GetDatacenterData requires a non-zero provider stake, because classes/Datacenter.py:66 divides without a guard; a zero stake would raise ZeroDivisionError.
- Countries.Country.Report requires a non-zero chain stake, because classes/Country.py:77 divides without a guard.
- Providers.Provider.GetDataCenterNodes requires a Flow provider to have no datacenters, because on Flow it calls `GetFlowDatacenterData`, which `Datacenter` does not define. It also requires a non-zero stake when there are datacenters, as `GetDatacenterData` does.
- Chains.Pct requires a non-zero total, and the percentage passes inherit that precondition. The analysis drivers instead return a `ZeroDivision` error when a total is zero, standing for the exception the source would raise.
- Setup.ParseArguments and the other argument functions require a non-empty argument list, since `sys.argv` always holds the program name.
- `\d` in the Flow scraper's IP pattern is matched as ASCII digits only, and `Upper` folds ASCII letters only.
- pandas' `groupby` sorts the IPs in the Flow scraper. The model keeps a map, so the output's key order is not modelled, and neither is the key order of any JSON output.
- FlowScraper.Finalize gives None for a node whose id is not a string. The source copies any id into the address, but the model's address is text.
- Near: the asynchronous discovery is modelled as the recording of the peers and producers one node reports. Recursion into peers, the promise ordering and the overwriting `getNetworkInfo` step are not modelled.
- Near: the validators are a sequence. JavaScript's `Object.keys` order of the validator object is taken as that sequence's order.
- Solana: `totalStake` (solana/solana-node-scraper.py:88) is not modelled, because nothing reads it. Stakes are kept as the JSON values the CLI returns.
- Solana: Python's equality of `True` and `1` as dictionary keys is not modelled.
- Aptos: the `(ip, domain)` tuple in `fullnode_address` is written as a JSON list, as `json.dump` writes it. A validator missing a field the loop reads (a KeyError) is not modelled, because the validator datatype always has every field.
- Crawl: Go's `filepath.Clean`, the full `url.Parse` grammar and slice capacities are not modelled.
- Config: a TOML decode failure returns the zero configuration. Fields that `toml.Decode` may have filled before failing are not modelled.
- CosmosAnalysis: writing the seeds to the crawler's configuration file is left out. `IdentifyValidators` returns the sets of IPs rather than the aliased per-node dictionaries it marks.

## Findings

| source | as written | input that shows it | evidently intended | confidence | as-written member | corrected member |
|---|---|---|---|---|---|---|
| utilities/setup.py:31-34,69-76,112 | the mandatory-flag check only searches the joined arguments for the text "--blockchain", so an argument that merely contains it passes, and `target_blockchain` is never assigned | `main.py --help=--blockchain`, with a folder holding only `sample.json`, reaches the final return with `target_blockchain` unbound | refuse the arguments as missing "--blockchain" when no argument sets it | not executed | Setup.TargetUnboundAsWritten | Setup.ParseArgumentsChecked |
