# AI Tools access core, modelled in Dafny

This project models the visibility and access-control core of the Moodle plugin
`local_aitools`. The plugin hosts subplugins (`aitoolsub_*`) and assembles a dashboard
from them. The model covers these parts:

- **Cohort gate** (`cohort_manager.dfy`). Each subplugin is open to everybody until
  administrators restrict it to one or more cohorts. Every failure opens the gate
  (fail-open). Administrators can add, remove and clear restrictions.
- **Subplugin manager** (`manager.dfy`). It discovers subplugins, adds the
  `aitoolsub_` prefix to their names and keeps only those that pass both their own
  access check and the cohort gate. It caches the result for the request. From that
  result it builds:
  - the dashboard blocks, stably sorted by weight (default 50);
  - the tools, grouped by category (default `general`);
  - the statistics.
- **Sales clusters subplugin** (`cluster_plugin.dfy`, `get_clusters.dfy`,
  `create_cluster.dfy`, `get_valuemap_data.dfy`):
  - plugin access;
  - per-cluster access for the owner or through a shared grant with a level and an
    optional expiry;
  - the cluster listing with its visibility rule, filters, newest-first order and
    clamped pagination;
  - cluster creation;
  - the aggregated value-map data.
- **Value-map document data layer** (`data_provider.dfy`, `get_all_entries_global.dfy`,
  `get_user_content_global.dfy`, `grouping.dfy`):
  - which entries, content, course modules and templates a user may see;
  - the per-activity group-mode filter;
  - separator rows between course/activity runs;
  - the user statistics;
  - the course → activity grouping of content.

Moodle's services are parameters of the model:

- capabilities, enrolment, group membership, module info, course lookups;
- database rows and query failures;
- the clock (`now`);
- the session user.

A database exception is a boolean parameter that selects the source's `catch` branch.
PHP's `empty()` is modelled as it behaves: `""` and `"0"` are both empty. PHP `trim()`
and stable `usort` are written out in `common.dfy` and `sorting.dfy`. `strip_tags()` is
written out for plain text and ordinary tags: a `<` before whitespace stays text, NUL
characters are dropped, and quotes and nested `<` inside a tag are tracked. Moodle's
`validate_parameters()` is modelled for the `PARAM_TEXT` and `PARAM_ALPHA` arguments:
a value that cleaning would change is refused before any capability check. SQL
`LIKE` is written out in `common.dfy` with its `%` and `_` wildcards and `\` escape.
Character comparison goes through the column collation, which is a parameter (the
identity for a binary collation, a case folding for a case-insensitive one). The cluster
listing passes user terms to `LIKE` unescaped, so a `%` or `_` in a term acts as a
wildcard. Name-keyed PHP arrays whose order the model keeps are sequences: the loaded
plugins, the context sample keyed by market, and the course → activity grouping.
Moodle's `get_records_sql` keys rows by their first column, and the context sample
models that: a later row with a market already seen replaces the earlier one.

The group filter of `build_group_filter_sql` has the group modes swapped (see
Findings). The entry and content visibility in `data_provider.dfy` uses the corrected
filter. The as-written filter is kept beside it, with a lemma that exhibits the
difference.

## Model

| member | source | states |
|---|---|---|
| CohortManager.RestrictionTable.HasCohortAccess | classes/cohort_manager.php:18-58 | access is granted iff the table is missing, a lookup fails, the subplugin has no restricting cohort, or the user is in one of its cohorts |
| CohortManager.RestrictionTable.AddCohortRestriction | classes/cohort_manager.php:111-140 | inserts exactly the one pair and reports true only when the table exists, no query fails and the pair was not already present; otherwise the table is unchanged |
| CohortManager.RestrictionTable.RemoveCohortRestriction | classes/cohort_manager.php:149-166 | deletes exactly the matching pair and no other row; reports false and changes nothing when the table is missing or the query fails |
| CohortManager.RestrictionTable.ClearCohortRestrictions | classes/cohort_manager.php:174-188 | removes every row of the subplugin, leaves every other subplugin's rows untouched, and leaves the subplugin unrestricted |
| CohortManager.RestrictionTable.GetAccessStatistics | classes/cohort_manager.php:212-250 | counts the distinct users of the restricting cohorts and the restriction rows; `unrestricted` iff there are no restricting cohorts; all-zero and unrestricted on the error paths |
| CohortManager.CountedUsersAreGateMembers | classes/cohort_manager.php:225-231 | a user is counted by the statistics iff the user shares a cohort with the subplugin's restrictions |
| CohortManager.NoCohortsIffNoRows | classes/cohort_manager.php:234-239 | a subplugin has no restricting cohort exactly when it has no restriction row, so `unrestricted` agrees with the gate |
| CohortManager.AddTwice | classes/cohort_manager.php:119-125 | adding the same pair twice reports no insertion the second time and leaves the table as one addition does |
| CohortManager.UnrestrictedIsOpen | classes/cohort_manager.php:35-38 | an unrestricted subplugin admits every user and reports zero users and zero cohorts |
| Manager.NormaliseName | classes/manager.php:49-52 | the result always starts with `aitoolsub_`; an already prefixed name is kept, any other gets the prefix |
| Manager.LoadPluginsNames | classes/manager.php:46-79 | a name is loaded iff some discovered candidate with a class, the plugin interface, plugin access and cohort access normalises to it |
| Manager.LoadPluginsDistinct | classes/manager.php:64 | the loaded plugin names are distinct; the in-place replacement by a later candidate is stated by `Manager.Upsert` and `Manager.LoadPluginsLastWins` |
| Manager.LoadPluginsLastWins | classes/manager.php:46-79 | each loaded plugin is the instance of the last discovered candidate that passes the checks under its normalised name |
| Manager.LoadPluginsChecked | classes/manager.php:58-65 | every loaded plugin carries the prefix, implements the interface, and passed both its own access check and the cohort gate |
| Manager.Upsert | classes/manager.php:64 | assigning into the name-keyed array: a new name is appended at the end with every earlier entry kept; an existing name keeps its position and, when names are distinct, only that entry is replaced by the new plugin and every other entry stays where it was |
| Manager.Registry.GetPlugins | classes/manager.php:19-87 | a filled cache is returned unchanged; otherwise the plugins are loaded and cached |
| Manager.Registry.ClearCache | classes/manager.php:214-216 | the cache is empty afterwards |
| Manager.Registry.GetDashboardBlocks | classes/manager.php:130-153 | returns all blocks of the cached plugins, tagged with plugin and key, sorted by weight with default 50 |
| Manager.SortedBlocks | classes/manager.php:134-150 | the loop over plugins and the weight sort produce exactly the sorted tagged blocks |
| Manager.DashboardBlocksOrdered | classes/manager.php:147-150 | the dashboard blocks are ordered by weight, are a permutation of the collected blocks, and blocks of equal weight keep their collection order |
| Manager.AllBlocksTagged | classes/manager.php:136-140 | each dashboard block is a block its tagged plugin declared |
| Manager.Registry.GetTools | classes/manager.php:160-179 | returns the tools of the cached plugins, grouped by category with default `general` |
| Manager.GroupTools | classes/manager.php:164-176 | the loop builds exactly the category grouping of all tagged tools |
| Manager.AddPluginTools | classes/manager.php:166-172 | appending one plugin's tools to the grouping equals grouping the longer tool list |
| Manager.ByCategoryIsPartition | classes/manager.php:170-171 | a category key exists iff some tool falls in it, and its bucket lists exactly those tools in order |
| Manager.ToolInItsBucketOnly | classes/manager.php:170-171 | every tool is in its own category's bucket and in no other bucket |
| Manager.Registry.GetStatistics | classes/manager.php:186-209 | counts the cached plugins, and the tools and blocks of the plugins before the first one whose calls throw |
| Manager.CountAll | classes/manager.php:194-206 | the statistics loop stops counting at the first plugin that throws, keeping the plugin count |
| Manager.UntilFailure | classes/manager.php:198-205 | the counted plugins are the longest prefix whose tools and blocks calls both succeed |
| Manager.CountsMatchCollections | classes/manager.php:196-202 | the tool and block counts equal the sizes of the collected tools and blocks |
| ClusterPlugin.HasAccess | plugins/cluster/classes/plugin.php:106-122 | no view capability denies; the manage capability admits; otherwise the cohort gate for `aitoolsub_cluster` decides |
| ClusterPlugin.ClusterTools | plugins/cluster/classes/plugin.php:53-83 | no tools without access; with access, one entry keyed `sales_campaigns` |
| ClusterPlugin.ClusterBlocks | plugins/cluster/classes/plugin.php:19-46 | no blocks without access; with access, two blocks without a `weight` key |
| ClusterPlugin.ClusterSeenByRegistry | plugins/cluster/classes/plugin.php:58-82 | the manager files the cluster tool under `general` and gives both blocks the default weight 50, since neither declares a category or weight at the key it reads |
| ClusterPlugin.LevelRank | plugins/cluster/classes/plugin.php:274-276 | levels rank view < edit < manage, and an unknown level ranks as view |
| ClusterPlugin.FindGrant | plugins/cluster/classes/plugin.php:258-266 | finds a shared-access row for the cluster and user, or reports that none exists |
| ClusterPlugin.CanAccessCluster | plugins/cluster/classes/plugin.php:244-279 | a missing cluster denies; the owner is admitted; anyone else needs an unexpired grant whose level is at least the requested one |
| ClusterPlugin.GrantDecides | plugins/cluster/classes/plugin.php:273-278 | for a non-owner with a live grant, access holds iff the grant's level ranks at least the requested level |
| ClusterPlugin.NoGrantDenied | plugins/cluster/classes/plugin.php:264-266 | a non-owner without a grant is denied |
| ClusterPlugin.OpenEndedGrantNeverExpires | plugins/cluster/classes/plugin.php:269-271 | a grant with no expiry or expiry 0 gives the same answer at any time |
| ClusterPlugin.AccessMonotone | plugins/cluster/classes/plugin.php:274-278 | access at a higher level implies access at every lower level |
| ClusterPlugin.GetValuemapdocValues | plugins/cluster/classes/plugin.php:287-310 | an unlisted field yields nothing; otherwise the trimmed non-empty values in row order |
| ClusterPlugin.TrimmedValuesClean | plugins/cluster/classes/plugin.php:303-307 | every returned value is trimmed and non-empty |
| ClusterPlugin.TrimmedValuesKeep | plugins/cluster/classes/plugin.php:303-307 | every row whose trimmed value is non-empty contributes that value |
| GetClusters.ClampLimit | plugins/cluster/classes/external/get_clusters.php:97 | the limit is 50 when absent and is clamped into 1..100 |
| GetClusters.ClampOffset | plugins/cluster/classes/external/get_clusters.php:98 | the offset is 0 when absent or negative, otherwise the given offset |
| GetClusters.Execute | plugins/cluster/classes/external/get_clusters.php:31-186 | raises `invalid_parameter` first when a filter fails validation; then raises without the capability or plugin access; otherwise reports the `COUNT(DISTINCT id)` of visible and matching clusters under the column collation, the page at offset and limit in newest-first order, `has_more`, and the pagination block |
| GetClusters.ValidFiltersIff | plugins/cluster/classes/external/get_clusters.php:18-24 | the filters pass validation iff the status is ASCII letters only and neither the market nor the search term holds a NUL or a `<` that opens a tag |
| GetClusters.TotalCount | plugins/cluster/classes/external/get_clusters.php:102-136 | the distinct-id count never exceeds the number of selected rows, and equals it when the table's ids are unique |
| GetClusters.DistinctIdCount | plugins/cluster/classes/external/get_clusters.php:102-103 | filtered rows carry at most one distinct id each, and exactly one each when the table's ids are unique |
| GetClusters.FormatRows | plugins/cluster/classes/external/get_clusters.php:139-172 | the row loop yields exactly one formatted row per fetched cluster, in order |
| GetClusters.SelectedIff | plugins/cluster/classes/external/get_clusters.php:63-92 | a cluster is counted iff it is visible to the user (owner or live grant) and matches every non-empty filter: status equal under the collation, market and search through unescaped `LIKE '%term%'` |
| GetClusters.PlainFiltersAreSubstrings | plugins/cluster/classes/external/get_clusters.php:83-91 | for terms without `%`, `_` or `\`, the market filter keeps exactly the clusters whose market contains the term, and the search filter those whose name or description contains it, under the collation |
| GetClusters.UnderscoreMarketKeepsAll | plugins/cluster/classes/external/get_clusters.php:83-86 | because the term is not escaped, a market filter of `_` selects every visible cluster with a non-empty market |
| Common.LikeSubstring | plugins/cluster/classes/external/get_clusters.php:83-91 | for a plain term, `s LIKE '%t%'` holds iff `t` occurs in `s` under the collation |
| Common.LikeTermThenAny | plugins/cluster/classes/external/get_clusters.php:83-91 | a plain term followed by `%` matches exactly the strings it begins under the collation |
| Common.LikeAnyThen | plugins/cluster/classes/external/get_clusters.php:83-91 | a leading `%` lets the rest of the pattern match any suffix of the string |
| Common.LikeAnyRest | plugins/cluster/classes/external/get_clusters.php:83-91 | the pattern `%` matches every string |
| Common.UnderscoreMatchesAny | plugins/cluster/classes/external/get_clusters.php:83-91 | the pattern `%_%` matches exactly the non-empty strings |
| GetClusters.PageShape | plugins/cluster/classes/external/get_clusters.php:94-136 | the page holds at most `limit` selected clusters, exactly `limit` when the reported count says more follow, and is ordered by modified date, newest first |
| GetClusters.PagesIsCeiling | plugins/cluster/classes/external/get_clusters.php:182 | `pages` is the ceiling of total over limit |
| GetClusters.CurrentPageHoldsOffset | plugins/cluster/classes/external/get_clusters.php:183 | `current_page` is the page that contains the offset |
| GetClusters.OwnerRow | plugins/cluster/classes/external/get_clusters.php:142-170 | the owner's row reports level `manage` and `is_owner` |
| GetClusters.ReportedLevelAgrees | plugins/cluster/classes/external/get_clusters.php:142-154 | for the owner or a live grant, the reported level admits exactly the levels that the per-cluster check admits |
| GetClusters.ReportedLevelIgnoresExpiry | plugins/cluster/classes/external/get_clusters.php:142-154 | the reported level comes from any grant, even an expired one that the per-cluster check rejects |
| GetClusters.ExpiryBoundaryDiverges | plugins/cluster/classes/external/get_clusters.php:63-69 | a grant expiring exactly now, or with expiry 0, passes the per-cluster check but not the listing's visibility rule |
| CreateCluster.Execute | plugins/cluster/classes/external/create_cluster.php:28-107 | raises `invalid_parameter` first when an argument fails validation; then raises without the capability, without plugin access, on an unknown status, or when the insert returns no id; otherwise stores trimmed name, market and description, the status, the creator and the current time |
| CreateCluster.ValidParametersIff | plugins/cluster/classes/external/create_cluster.php:16-37 | the request passes validation iff name, market and description hold no NUL and no `<` that opens a tag and the status is ASCII letters only |
| CreateCluster.MarketNotEnforced | plugins/cluster/classes/external/create_cluster.php:56-63 | the known markets never change the outcome, and a custom market that is logged is still stored, trimmed |
| CreateCluster.TaggedNameRefused | plugins/cluster/classes/external/create_cluster.php:18 | a name wrapped in a tag is refused by validation whatever the caller's rights |
| CreateCluster.HyphenStatusRefusedFirst | plugins/cluster/classes/external/create_cluster.php:21 | the status `on-hold` is refused by validation, before the capability check and instead of the status check |
| CreateCluster.DefaultStatusIsPlanning | plugins/cluster/classes/external/create_cluster.php:28 | without a status argument creation succeeds iff the name passes validation, and the cluster gets status `planning` |
| CreateCluster.CreatorReachesNewCluster | plugins/cluster/classes/external/create_cluster.php:71-76 | the creator can access the new cluster at every level and sees it in the listing |
| CreateCluster.StoredFieldsTrimmed | plugins/cluster/classes/external/create_cluster.php:66-69 | the stored text fields are trimmed, and creating again from them, when they pass validation, stores the same record |
| CreateCluster.TrimExposesTagOpener | plugins/cluster/classes/external/create_cluster.php:66 | trimming `x <` followed by a newline leaves a `<` at the end, which strip_tags takes for a tag opener |
| GetValuemapData.RequestedFields | plugins/cluster/classes/external/get_valuemap_data.php:54-59 | keeps the whitelisted fields in request order, and falls back to market, industry and role when none remain |
| GetValuemapData.RequestedFieldsIff | plugins/cluster/classes/external/get_valuemap_data.php:54-56 | when some requested field is whitelisted, a field is answered iff it was requested and is whitelisted |
| GetValuemapData.ClampLimit | plugins/cluster/classes/external/get_valuemap_data.php:62 | the limit is clamped into 1..200 |
| GetValuemapData.ValidParametersIff | plugins/cluster/classes/external/get_valuemap_data.php:16-40 | the request passes validation iff every field name is ASCII letters only and the search term holds no NUL and no `<` that opens a tag; a field `business_goal` is refused |
| GetValuemapData.Execute | plugins/cluster/classes/external/get_valuemap_data.php:32-151 | raises `invalid_parameter` first when an argument fails validation; then raises without the capability or plugin access; otherwise returns per requested field its values and statistics under the trimmed search, the context sample (the newest 20 context rows keyed by market) when a context field is requested, and `search_applied` iff the trimmed term is non-empty |
| GetValuemapData.CollectValues | plugins/cluster/classes/external/get_valuemap_data.php:84-93 | the value loop yields exactly the cleaned value items of the rows |
| GetValuemapData.CollectFields | plugins/cluster/classes/external/get_valuemap_data.php:66-96 | the field loop yields exactly one value list per requested field |
| GetValuemapData.CollectContext | plugins/cluster/classes/external/get_valuemap_data.php:112-120 | the loop over the keyed context records yields one item per record, in record order, each the formatted record with a missing strategy as empty |
| GetValuemapData.CollectStats | plugins/cluster/classes/external/get_valuemap_data.php:124-142 | the statistics loop yields exactly one statistics record per requested field |
| GetValuemapData.ValueItemsClean | plugins/cluster/classes/external/get_valuemap_data.php:84-93 | every value item is trimmed and non-empty, and its display is the value followed by its usage count in parentheses |
| GetValuemapData.ValueItemsBounded | plugins/cluster/classes/external/get_valuemap_data.php:83-93 | a lower bound on the usage count of every row holds for every value item |
| GetValuemapData.ValueItemsOrdered | plugins/cluster/classes/external/get_valuemap_data.php:79 | value items keep the descending usage order of the rows |
| GetValuemapData.FieldValuesShape | plugins/cluster/classes/external/get_valuemap_data.php:79-93 | a field has at most `limit` values, ordered by usage descending |
| GetValuemapData.ContextItemsShape | plugins/cluster/classes/external/get_valuemap_data.php:99-121 | the context sample has at most 20 items, one per market, covers every market among the newest 20 rows, and each item is the formatted oldest of those rows with its market, a missing strategy reported as empty |
| GetValuemapData.KeyedItemsShape | plugins/cluster/classes/external/get_valuemap_data.php:110-120 | the items of market-keyed rows are no more than the rows, one per market, cover every market, and each comes from its market's last row |
| GetValuemapData.KeyedByMarketShape | plugins/cluster/classes/external/get_valuemap_data.php:110 | keying rows by market keeps one row per market, no more rows than came in, every market, and for each market its last row |
| GetValuemapData.PutByMarketShape | plugins/cluster/classes/external/get_valuemap_data.php:110 | storing one row under its market keeps markets distinct, adds at most one entry, adds that market, loses none, and leaves other markets' rows as they were |
| GetValuemapData.DuplicateMarketKeepsOlder | plugins/cluster/classes/external/get_valuemap_data.php:102-110 | of two newest-first rows with the same market, only the older survives the keying |
| GetValuemapData.MarketIndex | plugins/cluster/classes/external/get_valuemap_data.php:110 | the position found holds the market and no earlier position does, or no position holds it |
| GetValuemapData.ContextItemsPointwise | plugins/cluster/classes/external/get_valuemap_data.php:112-120 | each context item is the formatted row at the same position |
| GetValuemapData.ResponseFields | plugins/cluster/classes/external/get_valuemap_data.php:66-142 | the response has a fields entry and a statistics entry for exactly the requested fields, each holding that field's values and statistics |
| GetValuemapData.SearchTermShape | plugins/cluster/classes/external/get_valuemap_data.php:61 | the reported term is trimmed, and filtering applies iff it is non-empty |
| DataProvider.EffectiveUser | plugins/valuemapdoc/classes/data_provider.php:21 | user 0 stands for the session user; any other id is used as given |
| DataProvider.UserGroups | plugins/valuemapdoc/classes/data_provider.php:577-601 | the keys are exactly the user's group ids, each mapped to a membership row of that user |
| DataProvider.GroupFilterModesSwapped | plugins/valuemapdoc/classes/data_provider.php:629-631 | the filter as written admits a separate-groups entry of a group the user is not in, and rejects a visible-groups entry from another group |
| DataProvider.EntriesDivergeAsWritten | plugins/valuemapdoc/classes/data_provider.php:25-72 | for a user with groups who may manage the module, an entry of another group is returned as written from a separate-groups module but not by the corrected operation, and the reverse for a visible-groups module |
| DataProvider.ContentDivergeAsWritten | plugins/valuemapdoc/classes/data_provider.php:364-436 | the same divergence for shared content in a module the user may view |
| DataProvider.GroupFilterIntended | plugins/valuemapdoc/classes/data_provider.php:615-631 | the corrected filter: a user with no groups sees only no-group activities; separate groups admit only the user's groups; no-group and visible-groups activities are open to users with groups |
| DataProvider.CanAccessCourseModule | plugins/valuemapdoc/classes/data_provider.php:538-569 | true iff the course exists, the user is enrolled or may view the course, the module is visible to the user in module info, its module context exists, and the user holds the capability in the module |
| DataProvider.AccessibleEntries | plugins/valuemapdoc/classes/data_provider.php:18-78 | the loop over joined entries returns exactly the entries of the effective user's visible modules |
| DataProvider.EntriesForIff | plugins/valuemapdoc/classes/data_provider.php:25-72 | an entry is returned iff it is in the table, passes the group filter and the user may manage entries in its module |
| DataProvider.AccessibleContent | plugins/valuemapdoc/classes/data_provider.php:364-436 | the loop over content rows returns exactly the content the effective user may see |
| DataProvider.PrivateContentOwnerOnly | plugins/valuemapdoc/classes/data_provider.php:396-430 | returned content is shared or private; private content is the user's own; and the user may view its module |
| DataProvider.AccessibleCourseModules | plugins/valuemapdoc/classes/data_provider.php:144-187 | the loop returns exactly the course modules that pass the module checks |
| DataProvider.CourseModulesForIff | plugins/valuemapdoc/classes/data_provider.php:149-184 | a module is returned iff it and its course are visible and exist, the user is enrolled or may view the course, and may view the module |
| DataProvider.FilterEntriesByGroups | plugins/valuemapdoc/classes/data_provider.php:196-245 | the loop with its per-module cache returns exactly the entries the per-entry group rule keeps, in order |
| DataProvider.FilterEntriesByGroupsIff | plugins/valuemapdoc/classes/data_provider.php:205-241 | no-group and visible-groups entries are kept; under separate groups, entries are kept when the user may access all groups, else iff the entry's group is the user's or 0; unknown modes drop the entry |
| DataProvider.AddSeparatorRows | plugins/valuemapdoc/classes/data_provider.php:255-302 | the loop produces exactly the separated row list |
| DataProvider.SeparatorRowsShape | plugins/valuemapdoc/classes/data_provider.php:255-302 | dropping separators gives back the entries; the list starts with a separator and ends with the last entry; a separator appears exactly where course or activity changes |
| DataProvider.SeparatorRowsWellSeparated | plugins/valuemapdoc/classes/data_provider.php:264-298 | separators head the list, neighbours of a run share course and activity, and every separator marks a change |
| DataProvider.UserAccessibleEntries | plugins/valuemapdoc/classes/data_provider.php:88-136 | returns the entries of the effective user's accessible modules, with separator rows when requested |
| DataProvider.TemplateAccess | plugins/valuemapdoc/classes/data_provider.php:489-514 | system templates are open; user templates belong to their owner; course and group templates require course access, course templates also the course-template capability; an unknown scope is denied; a missing course raises |
| DataProvider.AllowedTemplates | plugins/valuemapdoc/classes/data_provider.php:481-526 | raises iff some candidate template's course lookup raises, otherwise keeps exactly the granted templates in order |
| DataProvider.AccessibleTemplates | plugins/valuemapdoc/classes/data_provider.php:445-527 | returns exactly the templates selected by the query and granted by the scope rule |
| DataProvider.TemplatesForIff | plugins/valuemapdoc/classes/data_provider.php:454-526 | a template is returned iff the query succeeds, no selected template raises, and it is selected and granted |
| DataProvider.DefaultFilterDropsCourseTemplates | plugins/valuemapdoc/classes/data_provider.php:454-477 | with no course filter, only active templates of a known scope come back, and course templates only with course id 0 |
| DataProvider.CountModifiedSince | plugins/valuemapdoc/classes/data_provider.php:659-664 | counts the entries modified within the window |
| DataProvider.CountCreatedSince | plugins/valuemapdoc/classes/data_provider.php:668-672 | counts the content created within the window |
| DataProvider.UserStatistics | plugins/valuemapdoc/classes/data_provider.php:646-683 | reports totals of entries, content and templates, the week's counts, and the distinct courses and activities, each bounded by its total |
| DataProvider.UniqueCountsBounded | plugins/valuemapdoc/classes/data_provider.php:680-681 | the distinct course and activity counts never exceed the content count |
| DataProvider.GroupedContent | plugins/valuemapdoc/classes/data_provider.php:691-734 | groups the visible content by course then activity, with one course per distinct course, one activity per distinct pair, each bucket holding that pair's content, and counts that add up |
| DataProvider.GroupContent | plugins/valuemapdoc/classes/data_provider.php:694-733 | the grouping loop produces exactly the course → activity grouping |
| Grouping.GroupedCounts | plugins/valuemapdoc/classes/data_provider.php:697-731 | the grouping has one course per distinct course id and one activity per distinct course/activity pair |
| Grouping.GroupedBuckets | plugins/valuemapdoc/classes/data_provider.php:697-731 | each activity holds exactly its pair's content, its count is the bucket size, a course's count is the sum of its activities', and ids are distinct |
| Grouping.GroupedCovers | plugins/valuemapdoc/classes/data_provider.php:697-731 | every record is filed under its own course and activity |
| GetAllEntriesGlobal.EntriesWithContext | plugins/valuemapdoc/classes/external/get_all_entries_global.php:191-274 | returns the page of entries from all accessible modules, each module's entries newest first |
| GetAllEntriesGlobal.ActivityEntriesIff | plugins/valuemapdoc/classes/external/get_all_entries_global.php:201-261 | an entry is listed for a module iff it belongs to the module and passes the module's group clause |
| GetAllEntriesGlobal.ActivityClauseByMode | plugins/valuemapdoc/classes/external/get_all_entries_global.php:244-255 | outside separate groups, or with the session user's access-all-groups, every entry passes; otherwise only the user's groups, or the user's own entries when the user has no groups |
| GetAllEntriesGlobal.ActivityEntriesSorted | plugins/valuemapdoc/classes/external/get_all_entries_global.php:258 | each module's entries carry that module and are ordered newest first |
| GetAllEntriesGlobal.AllEntriesOrder | plugins/valuemapdoc/classes/external/get_all_entries_global.php:196-264 | the merged list follows the module order, and entries within a module are newest first |
| GetAllEntriesGlobal.Paginate | plugins/valuemapdoc/classes/external/get_all_entries_global.php:268-271 | with a positive page and limit, returns at most `limit` consecutive entries starting at the page's offset, exactly `limit` when available; otherwise everything |
| GetAllEntriesGlobal.FormatTimeAgo | plugins/valuemapdoc/classes/external/get_all_entries_global.php:377-394 | under a minute is "just now", then whole minutes, hours and days below one week, then the date |
| GetAllEntriesGlobal.FormatEntry | plugins/valuemapdoc/classes/external/get_all_entries_global.php:281-370 | every listed field is present, copied or empty; `ismaster` defaults to 0; both timestamps are the modification time |
| GetAllEntriesGlobal.FormatEntries | plugins/valuemapdoc/classes/external/get_all_entries_global.php:111-122 | formats every entry and records each entry's course and activity in the statistics maps |
| GetAllEntriesGlobal.UniqueCountsBounded | plugins/valuemapdoc/classes/external/get_all_entries_global.php:125-128 | the distinct course and activity counts never exceed the entry count |
| GetAllEntriesGlobal.Execute | plugins/valuemapdoc/classes/external/get_all_entries_global.php:61-148 | raises without the capability; returns the empty listing when no module is accessible; otherwise the formatted page with its statistics and pagination |
| GetAllEntriesGlobal.UngroupedEntryDiverges | plugins/valuemapdoc/classes/external/get_all_entries_global.php:244-255 | an entry with group 0 under separate groups is kept by the data-provider filter but dropped here |
| GetUserContentGlobal.ContentPreview | plugins/valuemapdoc/classes/external/get_user_content_global.php:170-177 | empty content has no preview; otherwise the stripped text, cut to 200 characters plus "..." when longer; the preview holds no NUL, and each `<` in it is followed by whitespace or sits just before the cut |
| Common.StripTags | plugins/valuemapdoc/classes/external/get_user_content_global.php:175 | the result is no longer than the input, holds no NUL, and each `<` in it is followed by whitespace |
| Common.StripTagsFixedIff | plugins/valuemapdoc/classes/external/get_user_content_global.php:175 | `strip_tags` leaves a string unchanged iff it has no NUL and no `<` that opens a tag; stripping twice equals stripping once |
| Common.StripFromTagFree | plugins/valuemapdoc/classes/external/get_user_content_global.php:175 | text without NUL and tag openers passes through unchanged |
| Common.LessThanBeforeSpaceKept | plugins/valuemapdoc/classes/external/get_user_content_global.php:175 | a `<` followed by a space is kept as text |
| Common.TagBodySkipped | plugins/valuemapdoc/classes/external/get_user_content_global.php:175 | a tag body without quotes or angle brackets is dropped up to its `>` and scanning resumes in text |
| Common.TagFreePrefixKept | plugins/valuemapdoc/classes/external/get_user_content_global.php:175 | a tag-free prefix is copied unchanged in front of the stripped rest |
| Common.TagPairRemoved | plugins/valuemapdoc/classes/external/get_user_content_global.php:175 | an opening and a closing tag around tag-free text are removed and the text kept |
| Common.AlphaParamOkIff | plugins/cluster/classes/external/create_cluster.php:21 | a `PARAM_ALPHA` value passes validation iff it consists of ASCII letters |
| Common.TextParamOkIff | plugins/cluster/classes/external/create_cluster.php:18-20 | a `PARAM_TEXT` value passes validation iff it holds no NUL and no `<` that opens a tag |
| Common.TaggedTextRefused | plugins/cluster/classes/external/create_cluster.php:18 | `<b>Acme</b>` fails `PARAM_TEXT` validation |
| Common.LessThanTextAccepted | plugins/cluster/classes/external/create_cluster.php:18 | `Revenue < 5% of target` passes `PARAM_TEXT` validation |
| Common.NonLetterAlphaRefused | plugins/cluster/classes/external/create_cluster.php:21 | `on-hold` and `business_goal` fail `PARAM_ALPHA` validation |
| GetUserContentGlobal.PreviewOfPlainText | plugins/valuemapdoc/classes/external/get_user_content_global.php:170-177 | short tag-free content is its own preview |
| GetUserContentGlobal.PreviewOfLongPlainText | plugins/valuemapdoc/classes/external/get_user_content_global.php:170-177 | long tag-free content previews as its first 200 characters plus "..." |
| GetUserContentGlobal.Item | plugins/valuemapdoc/classes/external/get_user_content_global.php:111-129 | template type defaults to `custom`, template name to the custom prompt, effectiveness to 0 and status to `ready` |
| GetUserContentGlobal.UserRecords | plugins/valuemapdoc/classes/external/get_user_content_global.php:57-72 | exactly the rows owned by the user |
| GetUserContentGlobal.GroupRecords | plugins/valuemapdoc/classes/external/get_user_content_global.php:82-141 | the loop builds the course → activity grouping and counts content, courses and activities |
| GetUserContentGlobal.RecentList | plugins/valuemapdoc/classes/external/get_user_content_global.php:144-158 | the recent list is the first 10 records, in order |
| GetUserContentGlobal.UserContentGrouped | plugins/valuemapdoc/classes/external/get_user_content_global.php:49-165 | reports the grouping, statistics and recent list of the effective user's content |
| GetUserContentGlobal.Execute | plugins/valuemapdoc/classes/external/get_user_content_global.php:23-44 | raises iff another user's content is asked for without the manage capability; otherwise reports that user's content |
| GetUserContentGlobal.OwnContentOnly | plugins/valuemapdoc/classes/external/get_user_content_global.php:33-43 | a user asking for their own content sees only records they own |
| Sorting.SortBy | classes/manager.php:148-150 | the stable sort returns a permutation of its input, ordered by key |
| Sorting.SortByStable | classes/manager.php:148-150 | elements with equal keys keep their relative order |

## Left out

- The JavaScript UI, the page scripts (`index.php`, `my_content.php`, `my_valuemaps.php`, `admin/cohorts.php`), language strings, service definitions and renderers are not part of this model.
- SQL text is not modelled. Each query is the set or sequence of rows it selects, written as a predicate over input rows. An `ORDER BY` on rows the model takes as input is assumed to hold, except where an order property is proved (the cluster listing and entries per activity).
- `moodle_url`, `get_string`, `userdate`, `fullname`, `json_encode`, `error_log` and `log_activity` are left out. They produce display text or logs and do not decide access.
- Subplugin discovery, including `scan_subplugins_manually`, is a parameter: the discovered candidates in order.
- `Manager.Registry`: the cache models PHP's static property, which lives for one request. Concurrent requests are not modelled.
- `get_subplugin_cohorts` and `get_all_cohorts` are plain table reads with no logic beyond the read itself.
- `get_display_columns` and `get_enhanced_columns` are constant column lists.
- The cluster plugin's `get_cluster_summary`, `get_recent_activity` and `get_plugin_info` only fill display payloads and are not modelled.
- `GetClusters.Execute`: the company, person and message counts and the creator name on each row are display data and are not modelled.
- The value-map document plugin's own `has_access` is a boolean parameter: its source `plugins/valuemapdoc/classes/plugin.php` is not part of this model.
- Common.StripTags covers text, ordinary tags, quotes and nested `<` inside tags, a `<` before whitespace, and NUL. It does not model the special states that PHP's `strip_tags` enters after `<!`, `<?` and inside comments, nor the locale's `isspace` beyond the six ASCII whitespace characters.
- Common.CleanText models `PARAM_TEXT` cleaning as `strip_tags` alone. Moodle's UTF-8 repair (`fix_utf8`) and its exemption for well-formed multilang `<span lang>`/`<lang>` markup are not modelled, so such markup is refused here where Moodle accepts it.
- CreateCluster.Execute, GetClusters.Execute and GetValuemapData.Execute: validation of the `PARAM_INT` arguments (non-numeric text, numeric strings) and of missing required arguments is not modelled, because the model's arguments are already typed.
- CreateCluster.Execute: the two `time()` calls for `created_date` and `modified_date` are one `now` parameter, so the model does not capture a creation that straddles a second boundary and stores dates one second apart.
- CreateCluster.StoredFieldsTrimmed: re-creating from the stored fields reproduces the record only when they still pass validation. Trimming can leave a `<` at the end of a value (`CreateCluster.TrimExposesTagOpener`), and such a value would be refused.
- GetClusters.Execute: the listing query's `GROUP BY c.id` is not modelled. The rows are the selected clusters, which matches the query on a table whose ids are unique (`id` is the primary key). The count is `COUNT(DISTINCT c.id)` in any case (`GetClusters.TotalCount`).
- `GetUserContentGlobal.ContentPreview` counts characters, whereas PHP's `strlen` and `substr` count bytes. The two agree on single-byte text only.
- `GetAllEntriesGlobal.FormatEntry`: the `?? time()` fallback for a missing modification time is not modelled, because the model's rows always carry one.
- `GetAllEntriesGlobal.FormatTimeAgo` returns the bucket and its count. The localised wording and the date format are left out.
- AccessibleEntries and AccessibleContent (`DataProvider`) use the corrected group filter (`DataProvider.GroupFilterPasses`), not the one as written (see Findings). What the code as written returns is `DataProvider.EntriesAsWritten` and `DataProvider.ContentAsWritten`, and `DataProvider.EntriesDivergeAsWritten` and `DataProvider.ContentDivergeAsWritten` prove where the two differ.
- EntriesForIff (`DataProvider.EntriesForIff`) states membership under the corrected group filter. Under the filter as written, a separate-groups entry of another group is returned and a visible-groups one is withheld (`DataProvider.EntriesDivergeAsWritten`).
- UserStatistics (`DataProvider.UserStatistics`) counts the entries and content of the corrected filter. Its totals therefore differ from the code as written wherever the two lists differ.
- GroupedContent (`DataProvider.GroupedContent`) groups the content of the corrected filter, not the content the code as written returns.
- GetClusters.Execute: a pattern ending in a lone `\` is taken as that literal character, as MySQL does; PostgreSQL rejects such a pattern with an error, and that error path is not modelled.
- GetClusters.Execute: the collation is a per-character map. Collations that treat multi-character sequences as equal (expansions such as `ß` and `ss`) and MySQL's padding of trailing spaces in `=` are not modelled.
- GetValuemapData.Execute: the `LIKE` of the value and count queries is applied inside the database parameter, which is not constrained to the `LIKE` of `common.dfy`.
- GetValuemapData.FieldValues: the `value ASC` tie-break among equal usage counts is taken from the order of the rows the database parameter returns. The collation's string order is not modelled.
- UserAccessibleEntries and AccessibleEntries (`DataProvider`) read the entry rows in the order given. The queries order by course short name and by course full name respectively, and the model does not tell the two orders apart.
- Manager.ByCategory is a map from category to its tools. The order in which PHP's array lists the categories (first appearance) is not modelled; each category's tool order is.
- GetAllEntriesGlobal.Execute: the `courses_list` and `activities_list` arrays (per-course and per-activity display summaries) are not modelled.
- The field-level user configuration (`user_fields`, `user_level_config`) is not part of this model.

## Findings

| source | as written | input that shows it | evidently intended | confidence | as-written member | corrected member |
|---|---|---|---|---|---|---|
| plugins/valuemapdoc/classes/data_provider.php:629-631 | group mode 1 is treated as "visible groups" (open to every user with a group) and mode 2 as "separate groups" (own groups only); Moodle defines SEPARATEGROUPS = 1 and VISIBLEGROUPS = 2, as `filter_entries_by_groups` in the same file uses them | an entry with group mode 1 (separate groups) and group 5, read by a user whose only group is 7, passes the filter; an entry with group mode 2 (visible groups) and group 5 is hidden from that user | separate-groups activities show only the user's own groups; visible-groups activities are open to users with groups | not executed | DataProvider.GroupFilterModesSwapped | DataProvider.GroupFilterIntended |
