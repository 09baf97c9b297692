# Verified model of the web-intelligence worker

The worker under `services/webintel/src` searches for a business, decides which website is its own,
and reads a few pages of it, politely and without being led into private networks. This project
models its algorithms, parsers, state machines and concurrent protocols in Dafny, and proves what
they promise over every input, every run and every schedule.

`dafny verify dfyconfig.toml` checks everything.

## How the model is laid out

| part of the worker | modules |
|---|---|
| robots.txt: line parser, wildcard matcher, decision (sections 2.2.1 to 2.2.4 of RFC 9309) | `RobotsParser`, `RobotsMatch`, `RobotsDecision`, `RobotsLaws` |
| address guard: IPv4 and IPv6 text (section 2.2 of RFC 4291), range classifier | `Ipv4Text`, `Ipv6Text`, `Ipv6Render`, `Ipv6Exact`, `IpClassifier`, `Ipv6Spelling` |
| bounded crawl and its link selection | `LinkExtraction`, `Crawler`, `CrawlerInvariants`, `CrawlerTheorems`, `CrawlerBudget`, `CrawlerHonesty`, `CrawlerLaws` |
| name similarity | `EditDistance`, `Names`, `NameLaws` |
| circuit breakers and the search client that feeds them | `Breaker`, `SearchHealth`, `SearchResults`, `SearchRows` |
| resolution of a business to a website | `Evidence`, `Domains`, `Resolver`, `ResolverTheorems`, `ResolverRanking`, `ResolverConfirm`, `NoiseFilter`, `ResolverNoise`, `ResolverPipeline`, `ResolverWeights` |
| following redirects | `Redirects` |
| concurrency: pacing per host, browser slots, crawl limit | `HostPacing`, `BrowserPool`, `Semaphore` |
| shared: strings, stable sort, insertion-ordered maps | `Text`, `StableSort`, `OrderedMap`, `RankedMap`, `Wrappers` |

Loops and objects of the worker are methods and classes here, each proved equal to a specification
function or to a step of a transition system; the theorems are lemmas about those. Time, robots
answers, pages, URL parsing and accent folding are parameters, so a theorem holds whatever they do.
Concurrent code is a sequence of atomic steps between awaits, in any order the code allows.
Scores are integers in ten-thousandths, and similarities are exact reals.

The modules `RobotsLaws`, `Ipv6Spelling`, `CrawlerLaws`, `NameLaws`, `SearchRows` and `ResolverWeights`
say what the specification functions amount to in plain terms: letters, digits, rows, URLs and points
given as literals.

## Where the code and its documentation differ

The model follows the code. Each difference has a lemma that exhibits it, and where the documented
property is worth having, a lemma that says exactly when it holds.

- `crawler.ts:9-10` says a thin result is never mistaken for a thin site. A run can report no
  exhausted budget although links were left out, because nothing reports the cut at twenty links of a
  page, and the depth limit is reported only when the last item taken is a page read at the limit with
  page budget to spare. `CrawlerHonesty.NullIsHonestIff` says for which options this cannot happen, and
  `CrawlerBudget.NullMeansFollowedIff` for which options at least no followed link is lost.
- `resolve.ts:52-57` says that the noise floor can never change an attach decision. A candidate
  whose name is noise can still outscore the right site, and then the floor decides.
  `ResolverNoise.FilterMattersIff` gives the exact condition on the first ranking and the candidates'
  own name scores, for what a request gives to find on a page, and `ResolverPipeline.NoiseFloorIff` carries it over to the answers of a search.
- `resolve.ts:217-219` says that no amount of page reading turns a foreign domain into the prospect.
  That holds of every request with neither a phone number nor a registry id
  (`ResolverPipeline.NumberlessIsDomestic`), but not of all. `ResolverConfirm.ForeignConfirmedIff` says
  exactly when pages can confirm one, for given candidates and what a request gives to find on a page,
  and `ResolverConfirm.ForeignCanWinIff` which evidence suffices in some search.
- `crawler.ts:213` says that a page outside the allowed host is never fetched. The host is checked
  before the fetch only, and redirects are followed wherever the static check allows.
  `Redirects.CanLeaveIff` says exactly when some answers lead a fetch to another host, and
  `Redirects.BounceLeaves` is such a fetch.
- `breaker.ts:60-63` says that a half-open breaker lets exactly the next call through. It lets every
  call through until one reports: `Breaker.EveryCallIsAProbe`.
- `server.ts:105` promises bounded concurrency. The limit can be exceeded when a new task enters
  between a wake-up and its resumption. `Semaphore.LimitHoldsIffOrderly` says exactly when no moment of
  a run leads beyond the limit by mere resumptions, and `Semaphore.BoundedIffRoom` when the run itself
  never goes beyond it.
- `ssrf.ts:192-193` blocks 2001:db0::/28, while its comment names 2001:db8::/32, which is part of it.
- `ssrf.ts:111-120` accepts slightly more than section 2.2 of RFC 4291: next to a "::" one stray
  colon at either end of the text is ignored, and "::" may stand for no group at all.
  `Ipv6Exact.AcceptsExactlyRenderings` is the exact language.
- `resolve.ts:93` reads a hit without an engine as one nameless engine: `Evidence.EnginesSurvive`.

## Model

| member | source | states |
|---|---|---|
| RobotsParser.ParseRobots | services/webintel/src/robots.ts:18-47 | the line loop computes the fold of the lines' meanings that the lemmas below speak of |
| RobotsParser.ParsePrint | services/webintel/src/robots.ts:18-47 | parsing undoes printing, for every list of groups a file can express |
| RobotsParser.ParseIsPrintable | services/webintel/src/robots.ts:18-47 | whatever the text, every group has an agent, every group but the last has a rule, and values are trimmed, free of comments, and agents lower-case |
| RobotsParser.RoundTripIffPrintable | services/webintel/src/robots.ts:18-47 | a list of groups survives printing and parsing iff it is one a file can express |
| RobotsParser.PrintIsNormalForm | services/webintel/src/robots.ts:18-47 | printing what was parsed gives a file with the same groups |
| RobotsParser.CutPrinted | services/webintel/src/robots.ts:24-29 | a printed line is cut into its field name and value |
| RobotsParser.NoiseIsIgnored | services/webintel/src/robots.ts:23-45 | a line the parser does not act on can be inserted anywhere without changing the groups |
| RobotsParser.ColonlessIsNoise | services/webintel/src/robots.ts:24-27 | a blank line, a comment, and any line without a colon before its comment are such lines |
| RobotsParser.UnknownFieldIsNoise | services/webintel/src/robots.ts:28-45 | so is every line with another field before its first colon, however padded and whatever follows |
| RobotsLaws.FieldLineMeans | services/webintel/src/robots.ts:24-44 | a field in any letter case, with any padding, value and comment after it, opens a group or adds a rule, with the value trimmed and agents in small letters |
| RobotsLaws.ParseWritten | services/webintel/src/robots.ts:18-47 | however each line of a list of groups is written in that way, the file parses to exactly these groups |
| RobotsLaws.LeadingRuleIsVoid | services/webintel/src/robots.ts:40-43 | a rule ahead of every agent line belongs to no group |
| Text.LowerLetters | services/webintel/src/robots.ts:28-36 | lower-casing turns the twenty-six capitals into their small letters and leaves all else |
| Text.Spaces | services/webintel/src/robots.ts:24-29 | the characters that trimming removes, one by one |
| RobotsMatch.MatchIsSegmentsAndGaps | services/webintel/src/robots.ts:68-77 | the expression matches iff the path is the pattern's literal segments in order with one-line gaps between them, and a free tail unless it ends in "$" |
| RobotsMatch.GreedyDecides | services/webintel/src/robots.ts:68-77 | a matcher that takes each segment leftmost, without backtracking, decides the same patterns |
| RobotsMatch.PlainPattern | services/webintel/src/robots.ts:68-77 | without "*" a rule is a prefix test, with a final "$" an equality test |
| RobotsMatch.StarsCollapse | services/webintel/src/robots.ts:68-77 | "**" means the same as "*" |
| RobotsMatch.UnanchoredIsStarDollar | services/webintel/src/robots.ts:68-77 | an unanchored pattern means the same as with "*$" added |
| RobotsMatch.UnanchoredCoversExtensions | services/webintel/src/robots.ts:68-77 | an unanchored rule that covers a path covers every longer path |
| RobotsMatch.DollarTiesTheEnd | services/webintel/src/robots.ts:68-76 | a final "$" ties the end of the path to the last segment, and without one any tail may follow |
| RobotsLaws.StarRunsOver | services/webintel/src/robots.ts:73-77 | a star runs over every character but the four line ends |
| RobotsDecision.DecideByRules | services/webintel/src/robots.ts:56-65 | the loop over the rules allows a path iff no rule applies or an Allow is among the longest that do |
| RobotsDecision.IsPathAllowed | services/webintel/src/robots.ts:49-66 | that decision, for the group chosen for the agent, and true without a group |
| RobotsDecision.FindIsFirst | services/webintel/src/robots.ts:51-52 | a group search returns the first group naming the agent, or none |
| RobotsDecision.ChosenGroup | services/webintel/src/robots.ts:50-54 | a group naming the agent shadows the first "*" group, and later groups of the same name are not merged |
| RobotsDecision.WeightIsLiteralLength | services/webintel/src/robots.ts:60 | a rule's weight is the total length of its literal segments |
| RobotsDecision.LongestWins | services/webintel/src/robots.ts:56-65 | the longest applicable rule decides, and Allow beats Disallow at equal length |
| RobotsDecision.RuleOrderIsIrrelevant | services/webintel/src/robots.ts:56-65 | permuting a group's rules never changes the answer |
| RobotsDecision.AddingRulesIsMonotone | services/webintel/src/robots.ts:56-65 | one more Allow never closes a path, and one more Disallow never opens one |
| RobotsLaws.GroupDecides | services/webintel/src/robots.ts:49-66 | a text permits a path when no group names the agent or all agents, and otherwise by the rules of the first group that names the agent, or failing that all |
| RobotsLaws.EmptyRuleIsVoid | services/webintel/src/robots.ts:56-65 | a rule without a pattern decides nothing, and without rules everything is permitted |
| RobotsLaws.TwoLineFile | services/webintel/src/robots.ts:49-66 | two lines, one for all agents and one rule, bind every agent: the path is closed iff the rule is a Disallow whose pattern is not empty and matches |
| Ipv4Text.ParseIpv4 | services/webintel/src/ssrf.ts:46-57 | the loop computes the value that Ipv4TextIffQuad characterises |
| Ipv4Text.Ipv4TextIffQuad | services/webintel/src/ssrf.ts:46-57 | a text parses to four octets iff it is four decimal parts of one to three digits with these values, joined by dots |
| Ipv4Text.PrintedOctet | services/webintel/src/ssrf.ts:50-54 | every octet written in decimal is read back |
| Ipv6Spelling.OctetTextIff | services/webintel/src/ssrf.ts:50-54 | a part is read as n iff it is one to three decimal digits that name n in base ten, and n is at most 255 |
| Ipv6Spelling.ParseDotted | services/webintel/src/ssrf.ts:46-57 | a dotted quad parses to the four numbers its parts spell |
| Ipv6Text.ParseIpv6 | services/webintel/src/ssrf.ts:91-157 | the loops compute the value that the lemmas on renderings characterise |
| Ipv6Render.ParseRendering | services/webintel/src/ssrf.ts:99-157 | every rendering of an address, in full or with "::" at any place, with or without a dotted tail, parses to the groups it means |
| Ipv6Render.RenderingsAgree | services/webintel/src/ssrf.ts:99-157 | two renderings parse alike iff they mean the same address |
| Ipv6Exact.AcceptsExactlyRenderings | services/webintel/src/ssrf.ts:99-157 | a text parses to some groups iff it is a wellformed rendering of them, and nothing else is accepted |
| Ipv6Exact.WholeTextIff | services/webintel/src/ssrf.ts:91-157 | the whole parser accepts exactly such renderings, bare or in brackets, with or without a zone index, padded with white space, each with its meaning |
| Ipv6Exact.ParsePrint | services/webintel/src/ssrf.ts:99-157 | any address can be written with "::" for any run of zero groups and with or without dotted tail, legally, and is read back |
| Ipv6Exact.ParsedIffAddress | services/webintel/src/ssrf.ts:91-157 | the results of parsing are exactly the lists of eight 16-bit groups |
| Ipv6Exact.WrappingIsIgnored | services/webintel/src/ssrf.ts:92-97 | brackets, a zone index and surrounding white space do not change the address |
| Ipv6Spelling.GroupTextIff | services/webintel/src/ssrf.ts:122-125 | a group is read as n iff it is one to four hexadecimal digits, each in either letter case, that name n in base sixteen |
| Ipv6Spelling.ParseEight | services/webintel/src/ssrf.ts:115-148 | eight spelled groups parse to their numbers |
| Ipv6Spelling.ParseShort | services/webintel/src/ssrf.ts:110-146 | groups around a "::" parse to their numbers with the missing zeros between them |
| Ipv6Spelling.ParseShortDotted | services/webintel/src/ssrf.ts:99-157 | after a "::", a dotted tail a.b.c.d makes the last two groups 256a + b and 256c + d |
| Ipv6Spelling.ParseSixDotted | services/webintel/src/ssrf.ts:99-157 | so does a dotted tail after six groups |
| IpClassifier.Ipv4IsTableLookup | services/webintel/src/ssrf.ts:59-85 | the classifier is a lookup in a table of address blocks: it blocks exactly the listed ones, each with its reason |
| IpClassifier.AtMostIsNumeric | services/webintel/src/ssrf.ts:59-85 | the table's order on addresses is that of the 32-bit numbers |
| IpClassifier.UnpackPack | services/webintel/src/ssrf.ts:106-106 | unpacking two groups inverts packing four octets |
| IpClassifier.EmbeddingKeepsVerdict | services/webintel/src/ssrf.ts:168-187 | mapped, compatible, under 64:ff9b::/96 or under 2002::/16, an IPv4 address is blocked iff it is blocked bare |
| IpClassifier.RelayedReason | services/webintel/src/ssrf.ts:179-187 | a 6to4 address is blocked for the reason of the address it carries |
| IpClassifier.SingleAddressReasons | services/webintel/src/ssrf.ts:162-166 | ::/128 and ::1/128 are blocked, each for its own reason |
| IpClassifier.ShortBlockReasons | services/webintel/src/ssrf.ts:189-191 | so are fc00::/7, fe80::/10 and ff00::/8 |
| IpClassifier.DocumentationPrefix | services/webintel/src/ssrf.ts:192-194 | the last test is membership of 2001:db0::/28 |
| IpClassifier.DocumentationReason | services/webintel/src/ssrf.ts:192-194 | an address in that block is refused as documentation |
| IpClassifier.CarriedVerdict | services/webintel/src/ssrf.ts:168-178 | a mapped, compatible or translated address has the verdict and the reason of the address it carries, but for the two single addresses |
| IpClassifier.Ipv6BlockedExactly | services/webintel/src/ssrf.ts:159-203 | an IPv6 address is blocked iff it lies in a listed block or carries a blocked IPv4 address |
| IpClassifier.CarriedBy | services/webintel/src/ssrf.ts:168-203 | a blocked address outside the listed blocks carries an IPv4 address |
| IpClassifier.ClassifyAddress | services/webintel/src/ssrf.ts:209-215 | text is judged as IPv4, else as IPv6, and refused when it is neither |
| IpClassifier.EverySpellingAgrees | services/webintel/src/ssrf.ts:46-215 | one IPv4 address gets one verdict however it is spelled: any quad, any rendering of any embedding, in brackets, with a zone, padded |
| Ipv6Spelling.MappedTextVerdict | services/webintel/src/ssrf.ts:91-215 | "::", a group that spells ffff in any letter case, and a dotted quad have the verdict of the quad alone |
| LinkExtraction.ExtractInternalLinks | services/webintel/src/extract.ts:476-482 | for given weighted links, the map and sort compute the ranking that the lemmas below speak of |
| LinkExtraction.RankedSpec | services/webintel/src/extract.ts:476-480 | the ranking lists each linked URL once, with the best weight of its links |
| LinkExtraction.TopLinksAreLinks | services/webintel/src/extract.ts:479-482 | what is followed are distinct links of the page |
| LinkExtraction.TopLinksAreHeaviest | services/webintel/src/extract.ts:479-482 | no link left behind outweighs one that is followed, and links are left behind only when twenty are followed |
| LinkExtraction.FewLinksAreAll | services/webintel/src/extract.ts:479-482 | when fewer than twenty are followed, every link of the page is among them |
| LinkExtraction.LinksInOrder | services/webintel/src/extract.ts:476-482 | the followed links come in falling best weight, and at equal weight in the order of their first occurrence |
| Redirects.Fetch | services/webintel/src/fetcher.ts:192-272 | the requests of a fetch form a chain of redirects from the given URL, at most maxRedirects + 1 of them, each in time and past the static check, and the outcome says how the chain ended |
| Redirects.RedirectByCases | services/webintel/src/fetcher.ts:109-125 | a redirect is followed iff it names a location that resolves and passes the check, is unsafe iff only the check fails, and bad otherwise |
| Redirects.RunIsUnique | services/webintel/src/fetcher.ts:192-272 | this leaves no choice: the URLs requested and the outcome are determined by the outside |
| Redirects.CanLeaveIff | services/webintel/src/crawler.ts:213-247 | some answers lead a fetch to another host than its URL's iff that URL passes the static check, at least one redirect may be followed, and some URL on another host passes the check |
| Redirects.BounceLeaves | services/webintel/src/fetcher.ts:239-247 | a start page that answers with one redirect to any URL that passes the check leads there |
| Crawler.CrawlSite | services/webintel/src/crawler.ts:178-307 | the work-list loop reports what the transition system it runs records |
| Crawler.AskWorld | services/webintel/src/crawler.ts:213-281 | what becomes of a URL: unsafe, off the host, private, disallowed, failed or read, in the order in which the code asks |
| Crawler.TakeItem | services/webintel/src/crawler.ts:211-269 | an item not seen before moves the loop variables to the next state |
| Crawler.PagesGrow | services/webintel/src/crawler.ts:197-282 | each iteration reads a page and adds at most twenty items, or shortens the queue by one |
| CrawlerInvariants.IterateInv | services/webintel/src/crawler.ts:197-282 | every iteration keeps the whole invariant: levels, distinct keys, depth cap, walks, coverage, counts, honesty |
| CrawlerTheorems.QueueIsLevelled | services/webintel/src/crawler.ts:195-282 | at every moment the queue is ordered by depth and spans at most two adjacent levels |
| CrawlerTheorems.DepthIsLinkDistance | services/webintel/src/crawler.ts:195-282 | every key is taken at its least link distance from the start along pages that were read |
| CrawlerTheorems.ExhaustedIsComplete | services/webintel/src/crawler.ts:195-282 | when the queue runs dry, everything within maxDepth links of the start has been visited, at that distance or less |
| CrawlerTheorems.WorkIsBounded | services/webintel/src/crawler.ts:197-282 | whatever the sites link to, at most maxPages pages are read and 1 + 20 * maxPages items taken |
| CrawlerTheorems.KeysAreTakenOnce | services/webintel/src/crawler.ts:209-211 | no key is taken twice |
| CrawlerTheorems.PagesAreDistinct | services/webintel/src/crawler.ts:209-259 | the reported pages have distinct keys |
| CrawlerTheorems.FetchIsSafe | services/webintel/src/crawler.ts:213-245 | whatever was requested is on the allowed host, not refused by robots.txt, and within the depth limit |
| CrawlerTheorems.ReadsAreGenuine | services/webintel/src/crawler.ts:249-281 | a request counts as a page iff it was answered without error by markup; a failure names its cause: what was thrown, the status, or the content type; links are the page's heaviest |
| CrawlerTheorems.VisitsAreAccountedFor | services/webintel/src/crawler.ts:188-282 | every key taken is read, skipped, failed or off the host, exactly once |
| CrawlerTheorems.ReportedBudget | services/webintel/src/crawler.ts:194-282 | exactly when pages, time, depth or nothing is reported as exhausted |
| CrawlerLaws.PagesAreTakenOnce | services/webintel/src/crawler.ts:209-211 | no two URLs that are equal, or equal but for one final slash, are both taken |
| CrawlerLaws.PagesAreReportedOnce | services/webintel/src/crawler.ts:209-259 | nor both reported as pages |
| CrawlerLaws.SlashIsNoOtherPage | services/webintel/src/crawler.ts:209-211 | u and u with a slash after it are never both taken, nor both reported |
| CrawlerLaws.DroppedIffTaken | services/webintel/src/crawler.ts:207-211 | an item is dropped iff such a URL was taken before; any other is taken there and then |
| CrawlerLaws.LinksAreQueued | services/webintel/src/crawler.ts:262-266 | above the depth limit the links of a page that were not seen go to the end of the queue, one level down and in their order, and otherwise nothing does |
| CrawlerLaws.FateByCases | services/webintel/src/crawler.ts:213-281 | what becomes of an item, by its host, the robots answer and the page: hosts match with or without one "www.", and a refused media type is reported without its parameters |
| CrawlerLaws.VisitsAreDecided | services/webintel/src/crawler.ts:213-281 | every visit has the fate that the answers of its own iteration give it |
| CrawlerLaws.ReportIsSelected | services/webintel/src/crawler.ts:188-299 | the report lists the pages read, the URLs that robots closed and the failures with their reasons, each in the order of the visits |
| CrawlerLaws.PicksAll | services/webintel/src/crawler.ts:188-299 | such a list takes every visit of its kind and no other |
| CrawlerLaws.BudgetByCases | services/webintel/src/crawler.ts:194-269 | pages, time and depth are each reported exactly under the stated conditions on the queue, the clock, the count and the last visit |
| CrawlerHonesty.NullIsHonestIff | services/webintel/src/crawler.ts:9-282 | with a clock that starts at zero or later, reporting no exhausted budget guarantees that every link of every page read was visited iff there are no pages or no time to spend, or one page and some depth, or no depth and at least two pages |
| CrawlerHonesty.StarMisleads | services/webintel/src/crawler.ts:262-269 | for all other options, a site with twenty-one links on which it does not |
| CrawlerBudget.NullMeansFollowedIff | services/webintel/src/crawler.ts:194-282 | the same for the links that were chosen to be followed: it holds iff maxPages is at most the depth limit, or there is no time, or no depth and at least two pages |
| CrawlerBudget.ChainMisleads | services/webintel/src/crawler.ts:262-269 | for all other options, a site on which a followed link is lost without a word |
| EditDistance.FillRow | services/webintel/src/identity.ts:251-260 | the inner loop fills a row of the table of distances from the row before |
| EditDistance.StringSimilarity | services/webintel/src/identity.ts:243-267 | the two-row loop computes one minus the edit distance over the longer length, and 1 for equal strings |
| EditDistance.DistanceIsShortestScript | services/webintel/src/identity.ts:250-265 | the number computed is the length of a shortest edit script |
| EditDistance.Inverse | services/webintel/src/identity.ts:250-265 | every script can be undone by one of the same cost |
| EditDistance.Compose | services/webintel/src/identity.ts:250-265 | two scripts in a row can be replaced by one that costs no more than both |
| EditDistance.DistanceIsMetric | services/webintel/src/identity.ts:250-265 | zero iff equal, symmetric, triangle inequality, between the length difference and the longer length |
| EditDistance.SimilarityLaws | services/webintel/src/identity.ts:242-267 | the similarity is in [0,1], symmetric, and 1 iff the strings are equal |
| EditDistance.SimilarityIsShare | services/webintel/src/identity.ts:265-266 | the similarity times the length of the longer string is that length less the cost of a shortest script |
| Names.NormaliseIsIdempotent | services/webintel/src/identity.ts:122-132 | normalising a normalised name changes nothing |
| Names.TokenSimilarity | services/webintel/src/identity.ts:223-230 | the counting loop computes the Jaccard ratio of the token sets |
| Names.ContainmentSimilarity | services/webintel/src/identity.ts:233-240 | and this one the share of the smaller set |
| Names.TokenLaws | services/webintel/src/identity.ts:222-240 | Jaccard never exceeds containment; both are symmetric, in [0,1] and 0 iff nothing is shared; Jaccard is 1 iff the sets are equal and non-empty |
| Names.NameSimilarity | services/webintel/src/identity.ts:270-283 | computes the blended score that NameScoreLaws speaks of |
| Names.NameScoreLaws | services/webintel/src/identity.ts:269-283 | the score is symmetric, in [0,1], and 1 iff both names normalise to the same non-empty name |
| NameLaws.SpreadName | services/webintel/src/identity.ts:122-132 | however the words of a name are set apart, normalisation keeps those that are no legal form, one space apart |
| NameLaws.KeptOneByOne | services/webintel/src/identity.ts:130-131 | words are kept or dropped one by one, in order |
| NameLaws.ApostropheVanishes | services/webintel/src/identity.ts:126-127 | each of the three apostrophes vanishes wherever it stands, and no other character does |
| NameLaws.TokensAreWords | services/webintel/src/identity.ts:224-225 | the tokens compared are exactly the words |
| NameLaws.CompactRunsTogether | services/webintel/src/identity.ts:280 | the compact view compares the words run together |
| NameLaws.ScoreIsWeighted | services/webintel/src/identity.ts:270-283 | shared words over all words weigh 0.45, over those of the shorter name 0.35, the strings 0.2, or the compact strings 0.95 if that is more |
| Breaker.StateIsReading | services/webintel/src/breaker.ts:64-125 | the registry's whole state of a key is a function of the event log |
| Breaker.ShownNext | services/webintel/src/breaker.ts:88-115 | a failed probe shows the threshold, any other failure one more, a success none; the reason is cut to 200 characters |
| Breaker.RefusedIffBlocked | services/webintel/src/breaker.ts:64-75 | a call is refused iff there are enough strikes, the last too recent, and no probe since; for any clock |
| Breaker.BreakerLaw | services/webintel/src/breaker.ts:64-115 | with a non-decreasing clock: closed iff fewer than threshold failures since the last success or reset, and refused iff the count is reached and the last failure younger than the cooldown |
| Breaker.BackwardClockAdmits | services/webintel/src/breaker.ts:64-75 | a clock that runs backwards breaks the second half |
| Breaker.EveryCallIsAProbe | services/webintel/src/breaker.ts:60-75 | a half-open breaker admits every call until one of them reports |
| Breaker.OthersDoNotMatter | services/webintel/src/breaker.ts:39-125 | events of other keys change nothing about a key |
| Breaker.SieveConserves | services/webintel/src/breaker.ts:77-86 | allowed and skipped keys together are the candidates |
| Breaker.SieveIsSelection | services/webintel/src/breaker.ts:77-86 | without repeats each key is judged by the log as it was before the call, in order |
| Breaker.BreakerRegistry.constructor | services/webintel/src/breaker.ts:45-49 | a threshold of at least one, a cooldown of at least zero, and no entries |
| Breaker.BreakerRegistry.Allows | services/webintel/src/breaker.ts:64-75 | refuses iff the log blocks the key, and logs the question |
| Breaker.BreakerRegistry.FilterAllowed | services/webintel/src/breaker.ts:77-86 | splits the candidates by the log at each one's turn |
| Breaker.BreakerRegistry.Success | services/webintel/src/breaker.ts:88-94 | its new entries are those of the longer log |
| Breaker.BreakerRegistry.Failure | services/webintel/src/breaker.ts:96-115 | likewise, and returns the phase that the longer log gives the key |
| Breaker.BreakerRegistry.ResetKey | services/webintel/src/breaker.ts:122-125 | likewise, for one key |
| Breaker.BreakerRegistry.ResetEverything | services/webintel/src/breaker.ts:122-125 | likewise, for all |
| Breaker.BreakerRegistry.AnyOpen | services/webintel/src/breaker.ts:142-145 | true iff some key of all is open by the log |
| SearchHealth.HealthIsReports | services/webintel/src/searxng.ts:132-162 | an engine's breaker counts exactly the unresponsive reports by live searches that asked it, since the last that did not report it; cached and failed searches add nothing |
| SearchHealth.SkippedIffReported | services/webintel/src/searxng.ts:71-98 | an engine is refused iff those reports reach the threshold and the last is younger than the cooldown |
| SearchHealth.RequestIsSplit | services/webintel/src/searxng.ts:71-75 | a request without repeats is split in order into queried and skipped engines by that rule |
| SearchHealth.PickMember | services/webintel/src/searxng.ts:71-75 | each requested engine is in exactly one of the two lists, and no other is in either |
| SearchHealth.QuietPhase | services/webintel/src/searxng.ts:71-148 | a cached, refused or failed search leaves an engine's phase as it was, except that an open one whose cooldown is over becomes half-open when the engine is asked for |
| SearchHealth.SearchClient.Sift | services/webintel/src/searxng.ts:71-75 | which engines are queried and skipped, by the log at that moment |
| SearchHealth.SearchClient.Proceed | services/webintel/src/searxng.ts:77-112 | after the cache lookup, whatever happened meanwhile: a request is sent iff there are engines, no cached answer, and the instance is not blocked |
| SearchHealth.SearchClient.FeedAnswer | services/webintel/src/searxng.ts:155-162 | each queried engine gets one verdict, failure iff it is named unresponsive |
| SearchHealth.SearchClient.Finish | services/webintel/src/searxng.ts:129-162 | an answer is a success of the instance and one verdict per queried engine |
| SearchHealth.SearchClient.Fail | services/webintel/src/searxng.ts:132-145 | a failed request touches the breaker of the instance only |
| SearchHealth.SearchClient.Clear | services/webintel/src/breaker.ts:122-125 | a full reset forgets every engine's reports |
| SearchResults.NormaliseResults | services/webintel/src/searxng.ts:233-274 | the loop, sort and cut compute the ranking that the lemmas below speak of |
| SearchRows.HitOfRows | services/webintel/src/searxng.ts:237-272 | a hit has the trimmed title of the first row about its URL, the first trimmed text that is not blank, and once each the engines that any of its rows names; rows count iff their trimmed URL starts with http:// or https:// in any letter case |
| SearchRows.HitsFollowRows | services/webintel/src/searxng.ts:264-272 | hits are numbered from one and come by number of engines, at a tie by the first row |
| SearchRows.RowIsHit | services/webintel/src/searxng.ts:237-266 | a URL that counts becomes a hit unless the limit is taken up by URLs that come before it |
| SearchRows.HitHasRow | services/webintel/src/searxng.ts:237-258 | every hit comes from such a row |
| SearchResults.HitsAreRanked | services/webintel/src/searxng.ts:264-274 | hits number at most the limit, are ranked from 1, have distinct URLs, and come in order of engine count then first rank |
| SearchResults.HitCarriesAllEngines | services/webintel/src/searxng.ts:248-272 | each hit names, once each, exactly the engines of all usable rows of its URL |
| SearchResults.DroppedComeAfter | services/webintel/src/searxng.ts:264-266 | a usable URL is left out only when the limit is reached, and comes after every hit in that order |
| SearchResults.ReduceText | services/webintel/src/searxng.ts:248-258 | a hit has the title of its first row and the first non-empty text of its rows |
| SearchResults.ReduceSpec | services/webintel/src/searxng.ts:248-261 | the merged entry of a URL keeps the first rank and the union of the engines |
| Evidence.Accumulate | services/webintel/src/resolve.ts:86-105 | the nested loops compute the grouping by URL of all hits with their queries |
| Evidence.AccumulateConserves | services/webintel/src/resolve.ts:86-105 | one entry per URL that was hit, with exactly the queries and engines that produced it |
| Evidence.FlattenInOrder | services/webintel/src/resolve.ts:86-91 | answers are taken in order |
| Evidence.SnippetIsFirst | services/webintel/src/resolve.ts:94-99 | the snippet kept for a URL is the first that is not empty |
| Evidence.EnginesSurvive | services/webintel/src/resolve.ts:93-100 | engines joined by the search are recovered by the split, except that none becomes one nameless engine |
| Evidence.GroupByDomain | services/webintel/src/resolve.ts:132-164 | the loop computes the grouping by domain of the usable entries |
| Evidence.GroupingConserves | services/webintel/src/resolve.ts:132-164 | every usable entry is in exactly the group of its domain; a group has the hits of its entries and the unions of their queries and engines; its root is https iff some entry's is |
| Evidence.RootIsExact | services/webintel/src/resolve.ts:146-156 | the root is the first origin, or the first https origin where the first is plain http |
| Evidence.PlacedIff | services/webintel/src/resolve.ts:135-143 | an entry is grouped iff its URL has a domain that is not empty and an origin |
| Evidence.PlacedInOrder | services/webintel/src/resolve.ts:135-148 | entries keep their order |
| Evidence.RootsAreDistinct | services/webintel/src/resolve.ts:123-164 | no two groups share a root, if among the URLs that were hit the origin determines the domain |
| StableSort.SortSpec | services/webintel/src/resolve.ts:449-452 | sorting gives an ordered permutation with ties in their original order |
| StableSort.SortHead | services/webintel/src/resolve.ts:234-236 | its head is the first of the members that nothing precedes |
| OrderedMap.GroupHolds | services/webintel/src/resolve.ts:86-105 | filling a map row by row leaves under each key the combination of all rows of that key, and no other key |
| OrderedMap.GroupOrder | services/webintel/src/resolve.ts:104 | the entries come out in the order in which their keys were first seen |
| RankedMap.TakenFirst | services/webintel/src/searxng.ts:264-266 | a sorted and cut map keeps nothing that something left out precedes |
| Domains.InSet | services/webintel/src/identity.ts:161-168 | a domain is listed iff it, or a parent domain with at least two labels, is in the set |
| ResolverPipeline.ScoreWebsiteCandidate | services/webintel/src/resolve.ts:169-248 | a domain group becomes a candidate iff its domain is on neither list and its name is not noise, and is then scored by its names, its mentions, and the sizes of its sets |
| ResolverWeights.ScoreIsPoints | services/webintel/src/resolve.ts:189-243 | the score of a site is, to the nearest ten-thousandth and at most one, the sum of the stated points for name, city, post code, phone, registry id, engines, queries, pages and country |
| ResolverWeights.TiesGoOutward | services/webintel/src/resolve.ts:243 | a half is rounded away from zero |
| ResolverWeights.OneMoreSignal | services/webintel/src/resolve.ts:193-210 | city and phone are worth 1500 ten-thousandths each, post code and registry id 1000 each |
| ResolverWeights.OneMoreSource | services/webintel/src/resolve.ts:211-232 | a second engine or query is worth 500, a third page 400, the country 600, and a foreign domain costs 3500 |
| ResolverWeights.ScoredSites | services/webintel/src/resolve.ts:173-187 | a site has no candidate iff its domain is listed or its name scores below 0.25; a candidate keeps root and domain |
| ResolverWeights.TitleIsFirstOfClosest | services/webintel/src/resolve.ts:234-241 | the title kept is the first of those closest to the name |
| ResolverWeights.SiteNameIsLargest | services/webintel/src/resolve.ts:178-181 | the name score is that of the domain or of the closest title |
| Resolver.NameScoreIsRecomputed | services/webintel/src/resolve.ts:178-236 | the name score of the search stage equals the one recomputed from the domain and the kept title before the decision |
| Resolver.Verify | services/webintel/src/resolve.ts:470-515 | the loop updates exactly the chosen candidates by their pages |
| ResolverWeights.PageAdds | services/webintel/src/resolve.ts:338-508 | the name on a page adds 2000, the city 800, the phone 1200 and the registry id 1000, up to 10000; a page not read adds nothing |
| ResolverWeights.WhoIsRead | services/webintel/src/resolve.ts:460-471 | the leader is read from 4500 points on, and the second when it is less than 600 behind |
| ResolverWeights.TwoRankings | services/webintel/src/resolve.ts:449-517 | candidates are ranked by score, some are read, and all are ranked again, none lost |
| Resolver.ResolveBusiness | services/webintel/src/resolve.ts:449-528 | rank, choose, verify, rank again and decide, as the function that the theorems are about |
| ResolverTheorems.WinnerIsLeaderOrCloseSecond | services/webintel/src/resolve.ts:449-528 | the winner is the leader of the first ranking, or the second if it stood within the margin |
| ResolverTheorems.ConfirmedMeans | services/webintel/src/resolve.ts:362-528 | a confirmed winner was read, its page bears the name and the city, phone or registry id, it had more than 0.39 before, its name scores at least 0.5, and its runner-up is implausible or far |
| ResolverTheorems.NoCloseRival | services/webintel/src/resolve.ts:376-382 | that holds against every other candidate, not just the second |
| ResolverTheorems.VerdictByCases | services/webintel/src/resolve.ts:362-406 | exactly when nothing is found, when a website is proposed, and which proposals are confirmed |
| ResolverConfirm.LoneConfirmation | services/webintel/src/resolve.ts:362-515 | exactly when a single candidate is confirmed by its page |
| ResolverConfirm.ConfirmableIff | services/webintel/src/resolve.ts:449-528 | among any candidates, some page answers confirm a given one iff its name scores at least 0.5, it leads with at least 0.45 or is second close behind such a leader, no other is above 0.94, and what the request gives to find on a page corroborates it and lifts it to 0.80 |
| ResolverConfirm.ForeignConfirmedIff | services/webintel/src/resolve.ts:217-528 | a candidate on a foreign domain can be confirmed iff its name scores at least 0.5, no other is above 0.94, and it leads with other evidence of at least 0.80 or stands second with other evidence, less 0.35, close behind a leader that is read, and what can be found corroborates it and comes, with that evidence, to 1.15 |
| ResolverConfirm.ForeignNeedsNumber | services/webintel/src/resolve.ts:217-528 | without a phone number and a registry id to find, no foreign domain is ever confirmed |
| ResolverConfirm.ForeignCanWinIff | services/webintel/src/resolve.ts:217-528 | in some search a foreign candidate can be confirmed iff its other evidence is above 0.74 and its name at least 0.5 |
| ResolverConfirm.ForeignAloneIff | services/webintel/src/resolve.ts:217-227 | as the only candidate it can be confirmed iff its other evidence is worth 0.80, its name 0.5, and what can be found corroborates it and comes, with that evidence, to 1.15 |
| ResolverConfirm.ForeignCanBeConfirmed | services/webintel/src/resolve.ts:217-227 | and there is such a candidate |
| NoiseFilter.SortKeeps | services/webintel/src/resolve.ts:449-452 | filtering before a stable sort and after it give the same ranking |
| ResolverNoise.FilterMattersIff | services/webintel/src/resolve.ts:52-528 | with the candidates' own name scores and what the request gives to find on a page, dropping the noisy ones changes the proposed website for some page answers iff in the first ranking noise stands first or second and near the best of the others, and either that one is fit and able to win and noise can block it, or the next is fit and able to win; or noise in front brings about that a fit candidate below 0.45 is read and can become plausible |
| ResolverNoise.NoiseCanDecide | services/webintel/src/resolve.ts:52-187 | two candidates with ordinary signals for which it does, whatever can be found on their pages |
| ResolverPipeline.FloorKeepsTheRest | services/webintel/src/resolve.ts:182-187 | the floor removes exactly the candidates that are noise by the name score recomputed before the decision |
| ResolverPipeline.NoiseFloorIff | services/webintel/src/resolve.ts:52-528 | so for any answers of a search the floor can change the proposed website iff the ranking of all their unlisted sites, with their own name scores, is of that kind |
| ResolverPipeline.ForeignSiteIff | services/webintel/src/resolve.ts:169-528 | for any answers of a search, with the real name similarity, the exact condition under which pages can confirm a site on a foreign domain |
| ResolverPipeline.NumberlessIsDomestic | services/webintel/src/resolve.ts:169-528 | for a request with neither phone number nor registry id no site on a foreign domain is ever confirmed |
| ResolverPipeline.FindWebsite | services/webintel/src/resolve.ts:436-528 | accumulating, grouping, scoring and resolving in sequence compute what the pipeline lemmas speak of |
| ResolverPipeline.SiteWasHit | services/webintel/src/resolve.ts:86-164 | the root and the domain of every group are those of a hit of the search |
| ResolverPipeline.ConfirmedSite | services/webintel/src/resolve.ts:86-528 | from the answers of the search on: a confirmed website is the root of a hit, on an unlisted domain, with a name score of at least 0.5 and more than 0.39 in the search stage, and its page corroborates it |
| HostPacing.OneAtATimeInOrder | services/webintel/src/fetcher.ts:170-186 | callers leave in order of arrival, one at a time, under any interleaving |
| HostPacing.StampsAreSpaced | services/webintel/src/fetcher.ts:170-186 | consecutive stamps on a host are at least the later caller's interval apart |
| HostPacing.HostIsPaced | services/webintel/src/fetcher.ts:170-283 | any two requests to a host are at least min(minHostIntervalMs, 10000) apart for each place between them, whatever robots.txt says |
| HostPacing.DeclaredDelayIsKept | services/webintel/src/fetcher.ts:275-283 | a declared delay is granted up to ten seconds |
| HostPacing.IntervalIsLarger | services/webintel/src/fetcher.ts:275-283 | the interval is the larger of the declared and the configured delay up to ten seconds, and the configured one when none is declared or robots are not respected |
| HostPacing.SomeoneCanMove | services/webintel/src/fetcher.ts:170-186 | until a caller is done, some step at or before it is possible as soon as the clock allows |
| HostPacing.StepsRunOut | services/webintel/src/fetcher.ts:170-186 | each such step brings it nearer to its release, and later arrivals do not set it back |
| HostPacing.PendingBound | services/webintel/src/fetcher.ts:170-186 | so at most three steps for each caller up to it remain, and with none left it is released |
| HostPacing.EveryoneIsReleased | services/webintel/src/fetcher.ts:170-186 | from any moment of a run, however it goes on, the callers up to a given one move at most three times each in sum, and until that caller is released one of them can move as soon as all sleeps have ended |
| HostPacing.RunInv | services/webintel/src/fetcher.ts:170-186 | every run keeps the lane's invariant |
| HostPacing.RateLimiter.Call | services/webintel/src/fetcher.ts:171-180 | joins the lane of its host and touches no other |
| HostPacing.RateLimiter.Turn | services/webintel/src/fetcher.ts:181-184 | sleeps if the last call is too recent, else stamps, as the step says |
| HostPacing.RateLimiter.Awake | services/webintel/src/fetcher.ts:183-184 | stamps after its sleep, as the step says |
| HostPacing.RateLimiter.Release | services/webintel/src/fetcher.ts:185 | opens the gate for the next caller, as the step says |
| BrowserPool.PoolLaw | services/webintel/src/browser.ts:327-345 | in every run the counter is the number of slots held, never above maxContexts; someone waits only when all are held; renders are let in in the order they asked |
| BrowserPool.GivingBackServesTheFirst | services/webintel/src/browser.ts:340-345 | a slot given back goes to the render that has waited longest |
| BrowserPool.RunInv | services/webintel/src/browser.ts:327-441 | every run keeps the invariant |
| BrowserPool.Pool.Acquire | services/webintel/src/browser.ts:327-338 | a slot at once iff one is free, else the back of the queue |
| BrowserPool.Pool.Release | services/webintel/src/browser.ts:340-345 | the slot passes to the first in the queue or becomes free |
| Semaphore.NoLostWakeUp | services/webintel/src/server.ts:111-123 | while a task waits, running and woken tasks fill the limit, and one of them can move |
| Semaphore.FirstWaitingIsWoken | services/webintel/src/server.ts:118-122 | a task that ends wakes the waiting task that arrived first and no other; the rest keep waiting |
| Semaphore.LimitHoldsIffOrderly | services/webintel/src/server.ts:111-123 | at no moment of a run do more tasks run, or can more come to run by mere resumptions, than the limit, iff no task enters ahead of one woken before it |
| Semaphore.BoundedIffRoom | services/webintel/src/server.ts:111-123 | a run itself never exceeds the limit iff every woken task that resumes finds a free place |
| Semaphore.OrderlyIsBounded | services/webintel/src/server.ts:105-123 | in such a run at most limit tasks run at once |
| Semaphore.LimitCanBeExceeded | services/webintel/src/server.ts:111-123 | five steps that run two tasks under a limit of one |
| Semaphore.Limiter.Begin | services/webintel/src/server.ts:112-115 | a task starts iff there is room, else it waits |
| Semaphore.Limiter.Continue | services/webintel/src/server.ts:112-115 | a woken task starts, whatever happened since it was woken |
| Semaphore.Limiter.End | services/webintel/src/server.ts:118-122 | a task ends and wakes the longest waiting one |

## Left out

- FilterMattersIff: says when some answers of the pages make a difference; for particular answers a risky ranking may still come out the same.
- ScoreWebsiteCandidate: whether the text of the hits mentions the city, post code, phone or registry id is a parameter.
- ExtractInternalLinks: links arrive resolved, filtered and weighted; the pattern lists behind the weights are not modelled.
- CrawlSite: starts after the start URL has passed `assertSafeUrl` and the allowed host has been settled.
- FateByCases: the different ways to fail the static check of a URL are one reason, `UnsafeUrl`.
- FetchIsSafe: speaks of the URL that the crawl asks for; what a fetch requests beyond it is the subject of `Redirects`, and rendering in a browser is not part of this model.
- ConfirmableIff: a page may bear any part of what the request gives to find; which parts a text can bear without others is not modelled, and the lemmas only use pages that bear all of it or cannot be read.
- HostIsPaced: the delay declared by robots.txt is a parameter; `crawlDelayMs` itself is not modelled.
- TimerFires: a timer is taken never to fire before its time by the clock that stamps calls, although the two clocks of the platform may differ.
- ConfirmedSite: assumes, as RootsAreDistinct does, that URLs of one origin among those that were hit have one domain; this holds of http and https URLs, to which search results are limited, but not of URLs with an opaque origin.
- CanLeaveIff: assumes that a resolved URL, written in full, is read back as itself against any other.
- NormaliseIsIdempotent: accent folding and lower-casing are a parameter that leaves plain lower-case text alone.
- PoolLaw: covers runs without shutdown; `shutdown` empties the queue.
- Accumulate: query and engine sets are sets here; the insertion order of engines within an entry is not captured.
- GroupByDomain: URL parsing is a parameter giving a domain and an origin, or nothing.
- Shared entry and group objects are values in maps and sequences here, so aliasing between a map and a returned list is not captured.
- Strings are sequences of characters: UTF-16 surrogate pairs and lower-casing outside ASCII are not modelled.
- Binary floating point: similarities are exact reals and scores are rounded once to ten-thousandths; bit masks are written as division and remainder.
- Times are integers in milliseconds, and the per-request timeouts of the fetcher and the browser are not modelled.
- The hostname rules of `assertSafeUrl` are part of the world's answer to a URL.
- HTML link and funnel detection, and the weights of anchors, which are pattern lists; links arrive as weighted anchors.
- `buildFunnelReport`, `dedupeSocials`, `pickSocial`, `scoreSocialCandidate`, `buildQueries`, evidence lists, signals and reasons: bookkeeping that adds no property of its own.
- `verifyAgainstPage` and `haystack`: text searches, whose outcomes are parameters; only the boosts are modelled.
- `normalizeCity`, `normalizePhoneDigits`, social handles and `tldCountryMatch`: short string rewrites, whose outcomes are parameters.
- `readCapped` of the fetcher, the disk cache, DNS, sockets, Playwright, process signals, HTTP routes, logging and configuration.
