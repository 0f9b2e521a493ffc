# Azure DevOps boards: hierarchy extraction and draw.io layout, modelled in Dafny

The `azure-devops-boards` skill has three scripts, and this project models the logic inside them.

- `extract-hierarchy.py` walks an Azure DevOps work-item tree. The tree goes root initiative → epics → features → PBIs (product backlog items).
  - It writes the tree as JSON records: ids, titles, project-relative area and iteration paths.
  - It also collects the distinct iteration paths and looks up each one's start and finish date in the iteration tree.
- `gen-hierarchy.py` lays out a draw.io diagram.
  - Initiatives that share an area path, directly or through a chain of others, are grouped into sections by a union-find.
  - Each section is a grid with area paths as rows and epics as columns. Features with their PBIs, and orphan PBIs, are stacked in the cells.
  - The sections are stacked down the page.
- `gen-timeline.py` lays out a second diagram from the same records.
  - It keeps only the PBIs whose iteration has a start date.
  - It files them in a grid with area paths as rows and dated iterations as columns. The columns are ordered by (start, finish, path) and coloured by iteration track.

What is modelled is the deterministic core: integer layout arithmetic, lists, dictionaries and loops.

- Pure Python code (`strip_project`, `get_child_ids`, `feat_label_h`, `iter_sort_key`, `format_date`, the list comprehensions) becomes Dafny functions, with lemmas stating what they promise.
- Code that changes state step by step becomes methods with loops and invariants. Each method is proved equal to a specification function, and the properties are proved about that function. This covers the `setdefault` grouping loops, the running counters `gi`, `h`, `max_h`, `cy` and `cell_y`, the recursive `walk` into a dictionary, and the seen-set loops.
- The union-find of `find_initiative_groups` changes its `parent` list in place. It is a class, `HierarchyGroups.UnionFind`, whose methods modify that field.
- A Python dictionary whose key order can be observed is an association list (`Collections.Put`/`Lookup`/`Keys`). Where only lookups matter, it is a Dafny `map`.
- The draw.io `cell(...)`/`cell_fn(...)` callback is modelled as appending a box record to a sequence. The record holds what the box stands for and its x, y, width and height.

Modules, in dependency order:

| module | file | contents |
|---|---|---|
| Common | common.dfy | Option, Max, Sum and MaxOf over sequences |
| Text | text.dfy | string order, `split`, `str`/`int`, quote doubling |
| Collections | collections.dfy | first-seen dedupe, index lists, sorted sets, ordered dictionaries |
| WorkItems | work_items.dfy | the JSON records (initiative, epic, feature, PBI) and their traversal order |
| Geometry | geometry.dfy | boxes and "inside a rectangle" |
| HierarchyMetrics | hierarchy_metrics.dfy | `feat_label_h`, `feat_height`, column positions |
| HierarchyGroups | hierarchy_groups.dfy | `get_initiative_areas`, the union-find, `find_initiative_groups` |
| HierarchySection | hierarchy_section.dfy | the area rows, `flat_epics` and `init_ranges` of `compute_section` |
| HierarchyGrid | hierarchy_grid.dfy | the grid, cell heights, row heights and `compute_section` |
| HierarchyRender | hierarchy_render.dfy | `render_section` |
| HierarchyDiagram | hierarchy_diagram.dfy | `generate_diagram` |
| TimelineOrder | timeline_order.dfy | the iteration order, labels, `format_date`, colour tracks |
| TimelineGrid | timeline_grid.dfy | `collect_scheduled_pbis`, `discover_areas`, `build_grid`, `calc_row_heights` |
| TimelineLayout | timeline_layout.dfy | `generate_page` |
| ExtractRefs | extract_refs.dfy | raw work items, `get_child_ids`, `strip_project`, `resolve_id` |
| ExtractIterations | extract_iterations.dfy | `collect_iterations`, `fetch_iteration_dates` |
| ExtractLinks | extract_links.dfy | the filters, parent links and `setdefault` groupings of `extract` |
| ExtractAreas | extract_areas.dfy | PBI records and the most-common-area fallback |
| ExtractTree | extract_tree.dfy | `extract` |

## Model

| member | source | states |
|---|---|---|
| Text.Take | skills/azure-devops-boards/references/extract-hierarchy.py:138 | `s[:n]` is the first n characters of s, or all of s when it is shorter |
| Text.Split | skills/azure-devops-boards/references/gen-timeline.py:66 | `s.split(c)` gives at least one piece; no piece contains c; with no c in s the only piece is s |
| Text.SplitFirst | skills/azure-devops-boards/references/gen-timeline.py:71 | the first piece of `s.split(c)` is the text before the first separator |
| Text.SplitLast | skills/azure-devops-boards/references/extract-hierarchy.py:52 | the last piece of `s.split(c)` is the text after the last separator |
| Text.ParseInt | skills/azure-devops-boards/references/extract-hierarchy.py:61 | `int(s)` gives a value only for an optional sign followed by digits, and never for the empty string |
| Text.ParseIntOfIntToString | skills/azure-devops-boards/references/extract-hierarchy.py:52 | `int(str(n)) == n` for every integer n |
| Text.NatToStringDigits | skills/azure-devops-boards/references/extract-hierarchy.py:52 | the decimal text of a natural number is all digits and has no leading zero unless the number is 0 |
| Text.EscapeQuotes | skills/azure-devops-boards/references/extract-hierarchy.py:63 | `replace("'", "''")` lengthens the text by one character per quote |
| Text.UnescapeEscape | skills/azure-devops-boards/references/extract-hierarchy.py:63-66 | reading the escaped text back as a quoted literal gives the original text, so no quote ends the literal early |
| Text.LexLessTotal | skills/azure-devops-boards/references/extract-hierarchy.py:107 | Python's string order is total: two different strings are ordered one way or the other |
| Collections.Dedupe | skills/azure-devops-boards/references/gen-hierarchy.py:157-167 | first-seen dedupe has no duplicates and has exactly the members of its input |
| Collections.FirstMembersAscending | skills/azure-devops-boards/references/gen-hierarchy.py:145-150 | keys in first-seen order are met in that order: an earlier key's first occurrence comes before a later key's |
| Collections.SortSet | skills/azure-devops-boards/references/extract-hierarchy.py:107 | `sorted(s)` of a set is strictly ascending and has exactly the set's members, whatever order the set is enumerated in |
| Collections.SortedUnique | skills/azure-devops-boards/references/gen-timeline.py:104 | `sorted(set(xs))` is strictly ascending and has exactly the members of xs |
| Collections.Lookup | skills/azure-devops-boards/references/extract-hierarchy.py:141 | `d.get(k)` finds a value exactly when k is a key, and the value is the one stored with k |
| Collections.PutKeys | skills/azure-devops-boards/references/extract-hierarchy.py:141 | `d[k] = v` keeps an existing key in its place and appends a new key at the end |
| Collections.PutLookup | skills/azure-devops-boards/references/extract-hierarchy.py:141 | after `d[k] = v`, k maps to v and every other key maps to what it did before |
| WorkItems.FeatureAreasMembers | skills/azure-devops-boards/references/gen-hierarchy.py:107-108 | an area occurs among a list's feature areas exactly when some feature carries it |
| WorkItems.EpicsAreasEmpty | skills/azure-devops-boards/references/gen-hierarchy.py:168-169 | traversing the epics meets no area exactly when no epic has a feature or an orphan PBI |
| HierarchyMetrics.FeatureText | skills/azure-devops-boards/references/gen-hierarchy.py:88 | the label text `#{id} {title}` has at least three characters, so it is never empty |
| HierarchyMetrics.CeilDivBounds | skills/azure-devops-boards/references/gen-hierarchy.py:92 | the integer line count is the ceiling: the smallest q with u <= d·q |
| HierarchyMetrics.FeatLabelH | skills/azure-devops-boards/references/gen-hierarchy.py:86-93 | a feature label is at least the one-line height of 26 |
| HierarchyMetrics.FeatLabelHLines | skills/azure-devops-boards/references/gen-hierarchy.py:89-93 | the label holds a whole number of 14-unit lines, and one line fewer would not hold its characters at 338/11 per line |
| HierarchyMetrics.FeatLabelHMonotone | skills/azure-devops-boards/references/gen-hierarchy.py:86-93 | a longer title never gets a shorter label |
| HierarchyMetrics.ShortLabelIsOneLine | skills/azure-devops-boards/references/gen-hierarchy.py:86-93 | a label text of at most 30 characters is one line, the default height of 26 |
| HierarchyMetrics.FeatHeight | skills/azure-devops-boards/references/gen-hierarchy.py:96-100 | a feature box is at least its label, the bottom padding, less one PBI gap |
| HierarchyMetrics.FeatHeightStep | skills/azure-devops-boards/references/gen-hierarchy.py:100 | each extra PBI makes a feature box exactly 34 taller |
| HierarchyMetrics.PbiInsideFeature | skills/azure-devops-boards/references/gen-hierarchy.py:313-315 | each PBI of a feature starts below the label and ends at least 8 above the feature's bottom; the last one ends exactly 8 above it |
| HierarchyMetrics.ColumnsDisjoint | skills/azure-devops-boards/references/gen-hierarchy.py:252 | column boxes at 270 + 220·i, 195 wide, are at least COL_GAP apart and never overlap |
| HierarchyGroups.AreaSetMembers | skills/azure-devops-boards/references/gen-hierarchy.py:103-111 | an area belongs to an initiative exactly when one of its features or orphan PBIs carries it |
| HierarchyGroups.GetInitiativeAreas | skills/azure-devops-boards/references/gen-hierarchy.py:103-111 | the loop computes exactly the initiative's area set |
| HierarchyGroups.RootsFollow | skills/azure-devops-boards/references/gen-hierarchy.py:124-128 | following a parent link never leaves the class |
| HierarchyGroups.HalvingKeepsRoots | skills/azure-devops-boards/references/gen-hierarchy.py:126 | path halving keeps the parent list a forest and leaves every index's root unchanged |
| HierarchyGroups.LinkRoots | skills/azure-devops-boards/references/gen-hierarchy.py:133 | hanging root b under root a moves b's whole class into a's and changes no other root |
| HierarchyGroups.MergedIntoSameClasses | skills/azure-devops-boards/references/gen-hierarchy.py:130-133 | what a union does depends only on the classes of its arguments |
| HierarchyGroups.UnionFind.constructor | skills/azure-devops-boards/references/gen-hierarchy.py:122 | `parent = list(range(n))`: every index is its own root |
| HierarchyGroups.UnionFind.Find | skills/azure-devops-boards/references/gen-hierarchy.py:124-128 | `find` returns x's root r with parent[r] == r, keeps every parent entry in range, and keeps every root |
| HierarchyGroups.UnionFind.Link | skills/azure-devops-boards/references/gen-hierarchy.py:132-133 | linking two roots merges b's class into a's and leaves every other class as it was |
| HierarchyGroups.UnionFind.Union | skills/azure-devops-boards/references/gen-hierarchy.py:130-133 | `union(a, b)` merges the two classes, whether or not they already are one, and leaves every other class as it was |
| HierarchyGroups.MergeKeepsEqual | skills/azure-devops-boards/references/gen-hierarchy.py:130-133 | a union never separates two indices and always joins its arguments |
| HierarchyGroups.RememberedGivesSharing | skills/azure-devops-boards/references/gen-hierarchy.py:135-142 | once every initiative is processed, two initiatives sharing an area are in one class |
| HierarchyGroups.UnionSharedAreas | skills/azure-devops-boards/references/gen-hierarchy.py:135-142 | the area loop leaves every pair of initiatives that share an area in the same class, and merges no class unless its members are linked by a chain of shared areas |
| HierarchyGroups.JoinAreas | skills/azure-devops-boards/references/gen-hierarchy.py:138-142 | the inner area loop for initiative i joins i with the first initiative of each area it shares and records i for each new area; every remembered area belongs to its initiative, and every class still holds only initiatives linked by shared areas |
| HierarchyGroups.ConnectedTrans | skills/azure-devops-boards/references/gen-hierarchy.py:115-118 | "transitively" sharing areas is transitive: two chains that meet make one |
| HierarchyGroups.SharedConnected | skills/azure-devops-boards/references/gen-hierarchy.py:117 | initiatives that share an area directly are linked |
| HierarchyGroups.SingletonsConnected | skills/azure-devops-boards/references/gen-hierarchy.py:122 | before any union, every class holds only linked initiatives |
| HierarchyGroups.MergeKeepsConnected | skills/azure-devops-boards/references/gen-hierarchy.py:130-140 | a union of two initiatives that carry the same area merges two classes of linked initiatives into one class of linked initiatives |
| HierarchyGroups.GroupsByRootPartition | skills/azure-devops-boards/references/gen-hierarchy.py:145-150 | grouping by root is a partition of the indices, in original order, and each group is exactly one root's class |
| HierarchyGroups.GroupsNonEmpty | skills/azure-devops-boards/references/gen-hierarchy.py:145-150 | no group is empty |
| HierarchyGroups.GroupsCover | skills/azure-devops-boards/references/gen-hierarchy.py:145-150 | every initiative is in some group |
| HierarchyGroups.GroupsOrdered | skills/azure-devops-boards/references/gen-hierarchy.py:145-150 | members keep their original order inside a group, and groups are ordered by their lowest member |
| HierarchyGroups.CollectGroups | skills/azure-devops-boards/references/gen-hierarchy.py:145-150 | the `setdefault` loop yields exactly the groups by root, in first-seen key order, and leaves the classes unchanged |
| HierarchyGroups.FillByRoot | skills/azure-devops-boards/references/gen-hierarchy.py:145-148 | the `setdefault` loop leaves the dict's keys as the roots in order of first appearance, each mapped to its members in index order, and changes no class |
| HierarchyGroups.FindInitiativeGroups | skills/azure-devops-boards/references/gen-hierarchy.py:114-150 | the groups are the connected components of area sharing: a partition in original order, where two initiatives sharing an area are in the same group and any two members of a group are linked by a chain of shared areas |
| HierarchyGroups.GroupsConnected | skills/azure-devops-boards/references/gen-hierarchy.py:144-150 | collecting the classes by root keeps each group made of linked initiatives |
| HierarchyGroups.ComponentsOfRoots | skills/azure-devops-boards/references/gen-hierarchy.py:114-150 | classes closed under sharing whose members are linked give groups that are exactly the connected components, in original order |
| HierarchyGroups.ChainStaysInGroup | skills/azure-devops-boards/references/gen-hierarchy.py:115-119 | a chain of initiatives, each sharing an area with the next, stays within one group |
| HierarchySection.GroupAreasDistinct | skills/azure-devops-boards/references/gen-hierarchy.py:155-169 | the area rows are never empty and never repeat an area |
| HierarchySection.GroupAreasMembers | skills/azure-devops-boards/references/gen-hierarchy.py:155-169 | an area is a row exactly when a feature or orphan of the group carries it; the rows are exactly ["(No area)"] when none does |
| HierarchySection.GroupAreasFirstSeen | skills/azure-devops-boards/references/gen-hierarchy.py:158-167 | rows keep first-seen order over features and then orphans, epic by epic |
| HierarchySection.DiscoverAreas | skills/azure-devops-boards/references/gen-hierarchy.py:155-169 | the seen-set loop computes exactly those rows |
| HierarchySection.DiscoverEpicAreas | skills/azure-devops-boards/references/gen-hierarchy.py:159-167 | one epic's feature and orphan areas extend the list of first-seen areas, without duplicates, and the seen set stays its element set |
| HierarchySection.ContentEpics | skills/azure-devops-boards/references/gen-hierarchy.py:176-177 | only epics with features or orphan PBIs are kept, and all of those are |
| HierarchySection.FlatColumn | skills/azure-devops-boards/references/gen-hierarchy.py:171-184 | column k is numbered k and holds an epic with content of an initiative of the group |
| HierarchySection.FlatPrefix | skills/azure-devops-boards/references/gen-hierarchy.py:175-184 | the columns of a prefix of the group are a prefix of the group's columns |
| HierarchySection.InitiativeColumns | skills/azure-devops-boards/references/gen-hierarchy.py:175-184 | initiative j owns exactly the contiguous columns Start(j) .. Start(j+1) - 1, which are its epics with content, in order |
| HierarchySection.StartMonotone | skills/azure-devops-boards/references/gen-hierarchy.py:175-184 | later initiatives start at later columns |
| HierarchySection.Span | skills/azure-devops-boards/references/gen-hierarchy.py:180-184 | a range `(start, gi - 1)` exists only for a non-empty run of columns |
| HierarchySection.RangesCover | skills/azure-devops-boards/references/gen-hierarchy.py:173-184 | every recorded range is a non-empty interval of existing columns, all of them owned by an initiative with that id |
| HierarchySection.RangesKeys | skills/azure-devops-boards/references/gen-hierarchy.py:178-184 | only initiatives with columns get a range |
| HierarchySection.RangeOfInitiative | skills/azure-devops-boards/references/gen-hierarchy.py:173-184 | with distinct ids, `init_ranges[id]` is exactly initiative j's first and last column, and an initiative without columns has no entry |
| HierarchySection.RangesDisjoint | skills/azure-devops-boards/references/gen-hierarchy.py:173-184 | the ranges of different initiatives do not overlap: the earlier one ends before the later one starts |
| HierarchySection.FlattenSkip | skills/azure-devops-boards/references/gen-hierarchy.py:178-179 | an initiative without epics with content changes neither the columns nor the ranges |
| HierarchySection.FlattenStep | skills/azure-devops-boards/references/gen-hierarchy.py:180-184 | an initiative with columns appends them and records their range |
| HierarchySection.AppendColumns | skills/azure-devops-boards/references/gen-hierarchy.py:181-183 | the inner loop appends one numbered column per epic and leaves `gi` after them |
| HierarchySection.FlattenEpics | skills/azure-devops-boards/references/gen-hierarchy.py:171-184 | the loop builds exactly the specified columns and ranges |
| HierarchyGrid.FeaturesInMembers | skills/azure-devops-boards/references/gen-hierarchy.py:192-195 | a cell holds a feature exactly when the feature sits in that area |
| HierarchyGrid.OrphansInMembers | skills/azure-devops-boards/references/gen-hierarchy.py:196-199 | a cell holds an orphan PBI exactly when the PBI sits in that area |
| HierarchyGrid.AddFeatureStep | skills/azure-devops-boards/references/gen-hierarchy.py:192-195 | adding the next feature to its cell moves the grid one feature on |
| HierarchyGrid.AddOrphanStep | skills/azure-devops-boards/references/gen-hierarchy.py:196-199 | adding the next orphan to its cell moves the grid one orphan on |
| HierarchyGrid.ColumnDone | skills/azure-devops-boards/references/gen-hierarchy.py:191-199 | a finished column holds each of its epic's features and orphans in the cell of its area, in order |
| HierarchyGrid.BuildGrid | skills/azure-devops-boards/references/gen-hierarchy.py:189-199 | the grid-building loop files each feature and orphan of column k in cell (area, k), in order |
| HierarchyGrid.FeatureBoxH | skills/azure-devops-boards/references/gen-hierarchy.py:211-212 | a feature box is at least 28 high |
| HierarchyGrid.SumFeatureHBound | skills/azure-devops-boards/references/gen-hierarchy.py:206-216 | the features of a cell take at least 28 each |
| HierarchyGrid.CellHPositive | skills/azure-devops-boards/references/gen-hierarchy.py:206-216 | a cell's content height is never negative, and it is 0 exactly for an empty cell |
| HierarchyGrid.FeatureStepH | skills/azure-devops-boards/references/gen-hierarchy.py:208-212 | each feature adds a gap of 10 unless it comes first, then its own height |
| HierarchyGrid.OrphanStepH | skills/azure-devops-boards/references/gen-hierarchy.py:213-216 | each orphan adds a gap of 10 unless it comes first, then 36 |
| HierarchyGrid.CellContentH | skills/azure-devops-boards/references/gen-hierarchy.py:206-216 | the `h` loop computes the cell's content height: the feature heights plus 36 per orphan, with a gap of 10 between consecutive entries |
| HierarchyGrid.FeaturesContentH | skills/azure-devops-boards/references/gen-hierarchy.py:206-212 | the feature part of the `h` loop gives the content height of a cell holding only those features |
| HierarchyGrid.NumEpics | skills/azure-devops-boards/references/gen-hierarchy.py:186 | `num_epics` is at least 1 and at least the number of columns |
| HierarchyGrid.RowHBounds | skills/azure-devops-boards/references/gen-hierarchy.py:218 | a row is at least 90 high and fits every cell of its area with 12 above and below |
| HierarchyGrid.RowHTight | skills/azure-devops-boards/references/gen-hierarchy.py:217-218 | a row is 90 or exactly its tallest cell plus 24 |
| HierarchyGrid.GetCellOf | skills/azure-devops-boards/references/gen-hierarchy.py:207 | `grid.get((area, ei), empty)` answers for every key as the columns call for |
| HierarchyGrid.RowHeights | skills/azure-devops-boards/references/gen-hierarchy.py:201-218 | the row-height loop gives one height per area, each max(tallest cell + 24, 90) |
| HierarchyGrid.AreaRowH | skills/azure-devops-boards/references/gen-hierarchy.py:203-218 | the `max_h` loop over the epic columns gives one area's row height: max(tallest cell + 24, 90) |
| HierarchyGrid.GridWCoversColumns | skills/azure-devops-boards/references/gen-hierarchy.py:186-187 | the grid reaches exactly the right edge of its last column, and every column lies within it |
| HierarchyGrid.ComputeSection | skills/azure-devops-boards/references/gen-hierarchy.py:153-233 | `compute_section` gives the specified rows, columns, ranges, grid and row heights, with grid_h = Σ rows + 20·(rows − 1) and total_h = 83 + grid_h |
| HierarchyRender.RenderInitBars | skills/azure-devops-boards/references/gen-hierarchy.py:246-256 | the bar loop emits one bar per initiative that has a range, in initiative order, and nothing for the others |
| HierarchyRender.BarWithin | skills/azure-devops-boards/references/gen-hierarchy.py:247-256 | an initiative's bar, when drawn, lies between the area labels' left edge and the lanes' right end, within its section |
| HierarchyRender.InitBarCovers | skills/azure-devops-boards/references/gen-hierarchy.py:251-256 | an initiative with columns gets one bar, from the left edge of its first column to the right edge of its last; one without columns gets none |
| HierarchyRender.InitBarsDisjoint | skills/azure-devops-boards/references/gen-hierarchy.py:251-256 | the bars of different initiatives of a section do not overlap |
| HierarchyRender.RenderEpicHeaders | skills/azure-devops-boards/references/gen-hierarchy.py:258-263 | the header loop emits one header per column, in column order, as EpicHeaders specifies |
| HierarchyRender.RenderEpicLanes | skills/azure-devops-boards/references/gen-hierarchy.py:287-292 | the lane loop emits one lane per column, as EpicLanes specifies |
| HierarchyRender.RowTops | skills/azure-devops-boards/references/gen-hierarchy.py:265-273 | each row starts where the previous one ended plus 20, the first at the grid's top, and `cy` ends at the grid's bottom |
| HierarchyRender.RowsStacked | skills/azure-devops-boards/references/gen-hierarchy.py:265-273 | rows follow each other in area order at least 20 apart, and the last one ends at top + grid_h |
| HierarchyRender.RowWithinGrid | skills/azure-devops-boards/references/gen-hierarchy.py:265-273 | every row lies between the grid's top and its bottom |
| HierarchyRender.RenderAreas | skills/azure-devops-boards/references/gen-hierarchy.py:275-285 | the area loop emits a label and a lane per area, in area order |
| HierarchyRender.AreaPairFits | skills/azure-devops-boards/references/gen-hierarchy.py:276-285 | in a row at least 40 high the area label stays inside the row, and the lane spans every column plus 30 on each side |
| HierarchyRender.LanesSpanRows | skills/azure-devops-boards/references/gen-hierarchy.py:287-292 | the column lanes reach 23 beyond the first and the last row |
| HierarchyRender.RenderFeature | skills/azure-devops-boards/references/gen-hierarchy.py:302-321 | one feature emits its box and then one box per PBI, and `cell_y` moves on by the feature's height |
| HierarchyRender.FeatureBoxesFit | skills/azure-devops-boards/references/gen-hierarchy.py:306-319 | every PBI box lies inside its feature's box, below the label, and the last one ends exactly 8 above the feature's bottom |
| HierarchyRender.RenderFeatures | skills/azure-devops-boards/references/gen-hierarchy.py:302-321 | the feature loop emits the boxes of each feature in order and leaves `cell_y` after the last one plus its gap |
| HierarchyRender.RenderOrphans | skills/azure-devops-boards/references/gen-hierarchy.py:323-330 | the orphan loop emits one box per orphan PBI, each 5 below the running `cell_y` |
| HierarchyRender.RenderCell | skills/azure-devops-boards/references/gen-hierarchy.py:299-330 | one cell emits its features' boxes, then its orphans' boxes from where the features left `cell_y` |
| HierarchyRender.FeaturesStacked | skills/azure-devops-boards/references/gen-hierarchy.py:302-321 | features drawn one after another never overlap: each ends at least 10 above the next |
| HierarchyRender.FeatTopSum | skills/azure-devops-boards/references/gen-hierarchy.py:300-321 | the k-th feature of a cell starts at the cell's top plus the heights of the features before it and 10 for each of them |
| HierarchyRender.FeatTopMono | skills/azure-devops-boards/references/gen-hierarchy.py:321 | a later feature of a cell never starts above an earlier one |
| HierarchyRender.FeatureBoxesInside | skills/azure-devops-boards/references/gen-hierarchy.py:302-319 | a feature's box and its PBI boxes lie in its column, from the running `cell_y` down by the feature's height |
| HierarchyRender.CellExtent | skills/azure-devops-boards/references/gen-hierarchy.py:299-330 | a cell's features end 10 above where its orphans begin, and its content ends exactly at the computed content height |
| HierarchyRender.CellBoxesFit | skills/azure-devops-boards/references/gen-hierarchy.py:299-330 | everything drawn for a cell lies in its column and within its content height below the top |
| HierarchyRender.CellFitsRow | skills/azure-devops-boards/references/gen-hierarchy.py:300 | a row 24 taller than a cell's content holds it with 12 above and 12 below |
| HierarchyRender.SectionRowsHoldCells | skills/azure-devops-boards/references/gen-hierarchy.py:201-218 | the row heights `compute_section` produces hold every cell of their row |
| HierarchyRender.CellInRow | skills/azure-devops-boards/references/gen-hierarchy.py:295-330 | every feature and orphan box of the cell at (area, column) starts at or below row_y + 12, ends at or above the row's bottom − 12, and stays in its column |
| HierarchyRender.SectionDrawable | skills/azure-devops-boards/references/gen-hierarchy.py:153-233 | every section `compute_section` produces has rows at least 90 high that hold their cells, columns numbered 0..k-1, ranges within the columns, and the stated grid_w, grid_h and total_h |
| HierarchyRender.GridHNonNegative | skills/azure-devops-boards/references/gen-hierarchy.py:221 | a grid of non-negative rows has non-negative height |
| HierarchyRender.ColumnInGrid | skills/azure-devops-boards/references/gen-hierarchy.py:260 | column c lies within the grid's width |
| HierarchyRender.ColumnBoxesWithin | skills/azure-devops-boards/references/gen-hierarchy.py:298-330 | a column lies in a rectangle when each of its cells does |
| HierarchyRender.CellsBoxesWithin | skills/azure-devops-boards/references/gen-hierarchy.py:295-330 | the cells of the first n columns lie in a rectangle when each column does |
| HierarchyRender.RenderColumn | skills/azure-devops-boards/references/gen-hierarchy.py:298-330 | the area loop emits the cells of one column in area order |
| HierarchyRender.RenderCells | skills/azure-devops-boards/references/gen-hierarchy.py:295-330 | the column loop emits every column's cells in column order |
| HierarchyRender.RenderSection | skills/azure-devops-boards/references/gen-hierarchy.py:236-330 | `render_section` emits the bars, headers, area rows, lanes and cells, in that order |
| HierarchyRender.SectionBoxesWithin | skills/azure-devops-boards/references/gen-hierarchy.py:236-330 | everything a computed section draws lies between the area labels' left edge and the right end of the lanes, from the section's y down to 23 below its grid |
| Geometry.AreaHeaderCentred | skills/azure-devops-boards/references/gen-timeline.py:213-214 | the rotated header's centre lies within the content it is centred on, and the header ends left of the area labels (the same cell as gen-hierarchy.py:390-391) |
| Geometry.AreaCellId | skills/azure-devops-boards/references/gen-timeline.py:241 | an area's cell id has the area's length and no space or capital, and in the timeline no backslash (gen-hierarchy.py:280 keeps backslashes) |
| Geometry.AreaCellIdCollides | skills/azure-devops-boards/references/gen-hierarchy.py:280 | the id map is not one-to-one: "Web App" and "web_app" get the same cell id in both scripts |
| HierarchyDiagram.ComputeSections | skills/azure-devops-boards/references/gen-hierarchy.py:337-340 | one section per group is computed, the sections without epic columns are dropped, and the order of the rest is kept |
| HierarchyDiagram.StackSections | skills/azure-devops-boards/references/gen-hierarchy.py:346-351 | section i is placed at y = 75 + Σ over j < i of (total_h_j + 50), and the legend goes at the running total |
| HierarchyDiagram.TotalHAtLeastHeader | skills/azure-devops-boards/references/gen-hierarchy.py:232 | a section is at least as tall as its header band of 83 |
| HierarchyDiagram.StackGrows | skills/azure-devops-boards/references/gen-hierarchy.py:346-351 | each section further down the stack starts at least 50 lower per section |
| HierarchyDiagram.SectionsStacked | skills/azure-devops-boards/references/gen-hierarchy.py:346-351 | a section, lanes included, ends at least 27 above where any later section or the legend starts |
| HierarchyDiagram.WidestGridBound | skills/azure-devops-boards/references/gen-hierarchy.py:343 | no section's grid is wider than `max_grid_w` |
| HierarchyDiagram.WidestGridAttained | skills/azure-devops-boards/references/gen-hierarchy.py:343 | `max_grid_w` is the width of some section's grid |
| HierarchyDiagram.PageWTight | skills/azure-devops-boards/references/gen-hierarchy.py:343-344 | page_w = max(370 + the widest grid, 1200): at least 1200, fits every grid with its margins, and is exactly 1200 or exactly the widest grid plus 370 |
| HierarchyDiagram.EmptyPage | skills/azure-devops-boards/references/gen-hierarchy.py:343-356 | without sections the page is 1200 × 800 |
| HierarchyDiagram.PageHoldsLegend | skills/azure-devops-boards/references/gen-hierarchy.py:354-356 | page_h = max(legend_y + 180, 800): the page holds the 130-high legend and a margin of 50 below it |
| HierarchyDiagram.ChromePlaced | skills/azure-devops-boards/references/gen-hierarchy.py:380-391 | the title and subtitle end inside the title area, above every section; the rotated header lies on the page, left of the area labels, centred within the stacked sections |
| HierarchyDiagram.TitlesPastPage | skills/azure-devops-boards/references/gen-hierarchy.py:343-387 | the title or the subtitle always ends past `page_w`: the subtitle by 50 while `max_grid_w` is at most 800, the title beyond that |
| HierarchyDiagram.RenderSections | skills/azure-devops-boards/references/gen-hierarchy.py:393-395 | each section is rendered at its own y, in order |
| HierarchyDiagram.AppendSection | skills/azure-devops-boards/references/gen-hierarchy.py:393-395 | one turn of the section loop appends section si's records to those of the sections before it |
| HierarchyDiagram.SectionInBand | skills/azure-devops-boards/references/gen-hierarchy.py:346-351 | a placed section lies in its own band, from its y down to at least 27 above the next section's y |
| HierarchyDiagram.BandsDisjoint | skills/azure-devops-boards/references/gen-hierarchy.py:346-351 | the bands of two sections do not meet |
| HierarchyDiagram.DiagramWithinPage | skills/azure-devops-boards/references/gen-hierarchy.py:343-395 | everything drawn for the sections lies below the title area, above the legend and within the page's width |
| HierarchyDiagram.GenerateDiagram | skills/azure-devops-boards/references/gen-hierarchy.py:333-356 | `generate_diagram` without XML: the groups are the connected components of area sharing, the kept sections are exactly those with columns, each is drawable, their y offsets are running sums, and the page has the stated size; the title, subtitle and rotated header are sized and placed from the widest grid and the stacked sections |
| TimelineOrder.KeyLessIrreflexive | skills/azure-devops-boards/references/gen-timeline.py:148 | the tuple order on sort keys is irreflexive |
| TimelineOrder.KeyLessTransitive | skills/azure-devops-boards/references/gen-timeline.py:148 | the tuple order on sort keys is transitive |
| TimelineOrder.KeyLessAsymmetric | skills/azure-devops-boards/references/gen-timeline.py:148 | the tuple order on sort keys is asymmetric |
| TimelineOrder.KeyLessTotal | skills/azure-devops-boards/references/gen-timeline.py:58-61 | two different sort keys are ordered one way or the other |
| TimelineOrder.PathsOrdered | skills/azure-devops-boards/references/gen-timeline.py:58-61 | the key ends with the path, so two different paths never tie: the order is a strict total order on paths |
| TimelineOrder.InsertByKey | skills/azure-devops-boards/references/gen-timeline.py:148 | inserting into a sorted list keeps it sorted and adds exactly the one element |
| TimelineOrder.SortByKey | skills/azure-devops-boards/references/gen-timeline.py:148 | `sorted(ps, key=iter_sort_key)` is sorted by (start, finish, path) and is a permutation of ps |
| TimelineOrder.SortedHeadLeast | skills/azure-devops-boards/references/gen-timeline.py:148 | the first element of a sorted list has the least key |
| TimelineOrder.SortedByKeyUnique | skills/azure-devops-boards/references/gen-timeline.py:148 | two sorted arrangements of the same paths are equal, so the sorted order is determined by its elements |
| TimelineOrder.DatedPaths | skills/azure-devops-boards/references/gen-timeline.py:147 | `dated_paths` holds exactly the keys whose entry has a start date |
| TimelineOrder.IterOrderSpec | skills/azure-devops-boards/references/gen-timeline.py:58-61 | `iter_order` holds exactly the iterations with a start date, each once per entry, ascending by (start, finish or "" when missing, path) |
| TimelineOrder.IterLabel | skills/azure-devops-boards/references/gen-timeline.py:64-66 | the label contains no backslash, and a path without one is its own label |
| TimelineOrder.IterTrack | skills/azure-devops-boards/references/gen-timeline.py:69-71 | the track contains no backslash, and a path without one is its own track |
| TimelineOrder.IterLabelIsSuffix | skills/azure-devops-boards/references/gen-timeline.py:64-66 | the label is the text after the last backslash, or the whole path |
| TimelineOrder.IterTrackIsPrefix | skills/azure-devops-boards/references/gen-timeline.py:69-71 | the track is the text before the first backslash, or the whole path |
| TimelineOrder.MonthAt | skills/azure-devops-boards/references/gen-timeline.py:76-79 | `months[i]` exists for -12 <= i < 12 (a negative index counts from the end) and is the i-th name for 0 <= i < 12 |
| TimelineOrder.ParseDigits | skills/azure-devops-boards/references/gen-timeline.py:79-80 | `int` of plain decimal digits is their decimal value |
| TimelineOrder.SplitThree | skills/azure-devops-boards/references/gen-timeline.py:78 | a date `y-m-d` whose parts have no dash splits into exactly those three parts |
| TimelineOrder.FormatIsoDate | skills/azure-devops-boards/references/gen-timeline.py:74-81 | a `YYYY-MM-DD` date with month 1..12 formats as the month's three-letter name, a space and the day without leading zeros |
| TimelineOrder.FormatDateExample | skills/azure-devops-boards/references/gen-timeline.py:75 | "2026-01-16" formats as "Jan 16" |
| TimelineOrder.DedupePrefix | skills/azure-devops-boards/references/gen-timeline.py:157-161 | a track's position among the tracks in first-seen order does not change as more iterations are seen |
| TimelineOrder.SeenIndexSpec | skills/azure-devops-boards/references/gen-timeline.py:156-160 | `seen_tracks` maps each track seen to its position in first-seen order, and holds nothing else |
| TimelineOrder.FirstSeenIndicesSpec | skills/azure-devops-boards/references/gen-timeline.py:155-161 | each iteration's number is the position of its track among the tracks in first-seen order |
| TimelineOrder.AssignTracks | skills/azure-devops-boards/references/gen-timeline.py:155-161 | the track loop numbers tracks 0, 1, 2, … in order of each track's first appearance in the iteration order |
| TimelineOrder.TrackColour | skills/azure-devops-boards/references/gen-timeline.py:223-224 | the colour index is track mod 4: always below 4, and the track itself when below 4 |
| TimelineGrid.ScheduledMembers | skills/azure-devops-boards/references/gen-timeline.py:94-98 | the filter keeps exactly the PBIs whose iteration has a start date |
| TimelineGrid.ScheduledConcat | skills/azure-devops-boards/references/gen-timeline.py:84-99 | filtering a concatenation filters each part in turn, so traversal order is kept |
| TimelineGrid.AppendScheduled | skills/azure-devops-boards/references/gen-timeline.py:93-98 | the inner loops append exactly the scheduled PBIs of a list, in order |
| TimelineGrid.AppendScheduledFeatures | skills/azure-devops-boards/references/gen-timeline.py:92-95 | the feature loop appends the scheduled PBIs of each feature in turn |
| TimelineGrid.AppendScheduledEpics | skills/azure-devops-boards/references/gen-timeline.py:91-98 | the epic loop appends, per epic, the scheduled PBIs of its features and then of its orphans |
| TimelineGrid.CollectScheduledPbis | skills/azure-devops-boards/references/gen-timeline.py:84-99 | `collect_scheduled_pbis` returns exactly the feature and orphan PBIs in a dated iteration, in traversal order |
| TimelineGrid.TimelineAreas | skills/azure-devops-boards/references/gen-timeline.py:102-104 | `discover_areas` is strictly ascending, so free of duplicates, and holds exactly the PBIs' areas |
| TimelineGrid.IterIndex | skills/azure-devops-boards/references/gen-timeline.py:109-113 | `iter_idx.get(path)` finds a path exactly when it is in the order, at its last position |
| TimelineGrid.CellSpec | skills/azure-devops-boards/references/gen-timeline.py:111-116 | a cell holds exactly the PBIs whose area and iteration index name it |
| TimelineGrid.BuildGrid | skills/azure-devops-boards/references/gen-timeline.py:107-117 | `build_grid` files each PBI, in input order, in the cell of its area and its iteration's index, and creates no empty cell |
| TimelineGrid.ScheduledPbiPlaced | skills/azure-devops-boards/references/gen-timeline.py:107-117 | every scheduled PBI lands in exactly one cell: its area's row and its iteration's column |
| TimelineGrid.FullestCell | skills/azure-devops-boards/references/gen-timeline.py:124-127 | the inner loop finds the size of the row's fullest cell |
| TimelineGrid.CalcRowHeights | skills/azure-devops-boards/references/gen-timeline.py:120-130 | one height per area: 34n + 18 for a fullest cell of n > 0 PBIs, otherwise 0, floored at 60 |
| TimelineGrid.RowHoldsCells | skills/azure-devops-boards/references/gen-timeline.py:120-130 | a row is at least 60 high and fits every cell's cards with 12 above and below |
| TimelineGrid.RowHeightTight | skills/azure-devops-boards/references/gen-timeline.py:128-129 | a row is 60 or exactly as tall as its fullest cell needs |
| TimelineLayout.RowTops | skills/azure-devops-boards/references/gen-timeline.py:165-174 | rows are stacked from y = 180, each at the previous y plus the previous height plus 20, and total_grid_h is the rows plus the gaps between them |
| TimelineLayout.RowTopMonotone | skills/azure-devops-boards/references/gen-timeline.py:168-173 | a later row never starts above an earlier one |
| TimelineLayout.RowsStacked | skills/azure-devops-boards/references/gen-timeline.py:168-173 | rows never overlap: a later row starts at least 20 below the end of an earlier one |
| TimelineLayout.RowInGrid | skills/azure-devops-boards/references/gen-timeline.py:168-174 | every row lies between 180 and 180 + total_grid_h |
| TimelineLayout.ColumnsAdjacent | skills/azure-devops-boards/references/gen-timeline.py:163 | columns sit side by side 20 apart, and grid_w = 250·n − 20 reaches exactly the last column's right edge |
| TimelineLayout.ChromePlaced | skills/azure-devops-boards/references/gen-timeline.py:200-214 | the title and subtitle end above the axis header, which spans exactly the iteration columns above their headers; the rotated header lies on the page, left of the area labels, centred within the grid |
| TimelineLayout.TitlesPastPage | skills/azure-devops-boards/references/gen-timeline.py:163-206 | the title or the subtitle always ends past `page_w`: the subtitle by 50 with up to three columns, the title by 30 from four on |
| TimelineLayout.ChromeOnPage | skills/azure-devops-boards/references/gen-timeline.py:163-214 | with a column, the axis header and rotated header lie within `page_w` and `page_h`, and the title or the subtitle ends past `page_w` |
| TimelineLayout.RenderHeaders | skills/azure-devops-boards/references/gen-timeline.py:216-226 | the header loop emits one header per column with its label, dates and colour, as Headers specifies |
| TimelineLayout.RenderIterLanes | skills/azure-devops-boards/references/gen-timeline.py:228-233 | the lane loop emits one lane per column |
| TimelineLayout.RenderAreaRows | skills/azure-devops-boards/references/gen-timeline.py:235-245 | the area loop emits a label and a lane per area, in area order |
| TimelineLayout.RenderCell | skills/azure-devops-boards/references/gen-timeline.py:253-258 | the innermost loop emits the cards of one cell, the k-th at row_y + 12 + 34·k |
| TimelineLayout.RenderColumn | skills/azure-devops-boards/references/gen-timeline.py:252-258 | the area loop emits the cards of one column, area by area |
| TimelineLayout.RenderCards | skills/azure-devops-boards/references/gen-timeline.py:247-258 | the PBI loops emit the cards of every column in order |
| TimelineLayout.CellCardsWithin | skills/azure-devops-boards/references/gen-timeline.py:254-258 | in a row as tall as its cell needs, every card lies inside its column, inset by 8, and inside the row's padding |
| TimelineLayout.CellInGrid | skills/azure-devops-boards/references/gen-timeline.py:247-258 | the cards of a cell lie in its column and within the grid |
| TimelineLayout.ColumnCardsWithin | skills/azure-devops-boards/references/gen-timeline.py:252-258 | a column's cards lie in a rectangle when each cell's cards do |
| TimelineLayout.CardsWithin | skills/azure-devops-boards/references/gen-timeline.py:247-258 | all cards lie in a rectangle when each column's do |
| TimelineLayout.AreaRowWithin | skills/azure-devops-boards/references/gen-timeline.py:238-245 | an area label lies inside its row, and its lane spans the grid's columns plus 30 on each side |
| TimelineLayout.DrawingWithinPage | skills/azure-devops-boards/references/gen-timeline.py:176-258 | every column header, lane, area row and card lies right of the area labels, below the header line, within the page's right margin less the lane overhang, and above the legend, which fits the page |
| TimelineLayout.CardInCell | skills/azure-devops-boards/references/gen-timeline.py:254-258 | the k-th PBI of a cell is drawn in its column and inside its row |
| TimelineLayout.MeasureRows | skills/azure-devops-boards/references/gen-timeline.py:150-174 | row heights as `calc_row_heights` gives them, stacked from 180, with their total height |
| TimelineLayout.GeneratePage | skills/azure-devops-boards/references/gen-timeline.py:133-182 | `generate_page` without XML: None exactly when no PBI is scheduled; otherwise the ordered rows, columns and tracks, every scheduled PBI filed, the measured rows and page size, and the drawn boxes, and the title, subtitle, axis header and rotated header sized and placed from the grid |
| TimelineLayout.LayOutPage | skills/azure-devops-boards/references/gen-timeline.py:144-182 | once PBIs are scheduled, the page has the ordered rows, columns and tracks, every PBI filed, the measured rows and page size, and the drawn boxes, and the title, subtitle, axis header and rotated header sized and placed from the grid |
| TimelineLayout.PageHasColumns | skills/azure-devops-boards/references/gen-timeline.py:147-151 | a page with a scheduled PBI has at least one column |
| TimelineLayout.PbiCell | skills/azure-devops-boards/references/gen-timeline.py:107-117 | a scheduled PBI is filed in the column of its iteration and the row of its area |
| TimelineLayout.EveryScheduledPbiDrawn | skills/azure-devops-boards/references/gen-timeline.py:247-258 | every scheduled PBI is drawn as a card in the column of its iteration and inside the row of its area |
| TimelineLayout.GeneratedWithinPage | skills/azure-devops-boards/references/gen-timeline.py:133-258 | on a generated page every column header, lane, area row and card lies within the page's width and height, and the legend fits below the grid |
| TimelineLayout.GeneratedChrome | skills/azure-devops-boards/references/gen-timeline.py:133-214 | on a generated page the axis header and rotated header lie within the page, while the title or the subtitle extends past its width |
| ExtractRefs.LastSegment | skills/azure-devops-boards/references/extract-hierarchy.py:52 | `url.split("/")[-1]` contains no slash and is the end of the URL, preceded by a slash or the whole URL |
| ExtractRefs.LastSegmentOfJoin | skills/azure-devops-boards/references/extract-hierarchy.py:52 | the final segment of `base + "/" + tail` is tail itself |
| ExtractRefs.LinkIdsConcat | skills/azure-devops-boards/references/extract-hierarchy.py:51-55 | collecting child ids distributes over a split of the relation list, so it keeps relation order |
| ExtractRefs.ChildIds | skills/azure-devops-boards/references/extract-hierarchy.py:49-55 | an item whose relations are missing or null has no children |
| ExtractRefs.LinkIdsMembers | skills/azure-devops-boards/references/extract-hierarchy.py:51-55 | an id is a child exactly when some forward hierarchy link of the item ends in it; no other relation counts |
| ExtractRefs.LinkedIdOfUrl | skills/azure-devops-boards/references/extract-hierarchy.py:52 | a link URL ending in `/<n>` names child n |
| ExtractRefs.StripProject | skills/azure-devops-boards/references/extract-hierarchy.py:90-93 | a leading `project\` is removed and nothing else changes; a path without it comes back unchanged |
| ExtractRefs.StripOnce | skills/azure-devops-boards/references/extract-hierarchy.py:90-93 | only one prefix goes, even when the rest begins with it again |
| ExtractRefs.StripBareProject | skills/azure-devops-boards/references/extract-hierarchy.py:90-93 | the bare project name comes back unchanged |
| ExtractRefs.ResolveRef | skills/azure-devops-boards/references/extract-hierarchy.py:58-68 | a numeric reference is looked up by number; any other is searched by a WIQL title comparison with its quotes doubled |
| ExtractRefs.ResolveNumber | skills/azure-devops-boards/references/extract-hierarchy.py:60-61 | a number's own decimal text resolves to that number |
| ExtractRefs.TitleLiteralReadsBack | skills/azure-devops-boards/references/extract-hierarchy.py:63-67 | between its quotes the query holds a literal that reads back as the title, so a quote in the title cannot end it early |
| ExtractIterations.IterationsOfConcat | skills/azure-devops-boards/references/extract-hierarchy.py:99-105 | collecting iterations distributes over a concatenation of PBI lists |
| ExtractIterations.IterationsOfMembers | skills/azure-devops-boards/references/extract-hierarchy.py:103-105 | a path is collected exactly when some PBI's iteration is that path, with a missing one read as "" |
| ExtractIterations.AddIterations | skills/azure-devops-boards/references/extract-hierarchy.py:102-105 | the innermost loops add the iterations of a PBI list to the set |
| ExtractIterations.AddFeatureIterations | skills/azure-devops-boards/references/extract-hierarchy.py:101-103 | the feature loop adds the iterations of every feature's PBIs |
| ExtractIterations.AddEpicIterations | skills/azure-devops-boards/references/extract-hierarchy.py:100-105 | the epic loop adds, per epic, the iterations of its features' PBIs and its orphans |
| ExtractIterations.CollectIterations | skills/azure-devops-boards/references/extract-hierarchy.py:96-107 | `collect_iterations` is strictly ascending, so free of duplicates, and holds exactly the non-empty collected paths |
| ExtractIterations.CollectedPaths | skills/azure-devops-boards/references/extract-hierarchy.py:96-107 | the collected paths are exactly the non-empty iteration paths that some feature PBI or orphan PBI names |
| ExtractIterations.JoinPath | skills/azure-devops-boards/references/extract-hierarchy.py:120 | a node's path is `prefix\name`, or the bare name at the top level |
| ExtractIterations.ApplyConcat | skills/azure-devops-boards/references/extract-hierarchy.py:122 | writing a run of entries into the dictionary is writing its parts one after the other |
| ExtractIterations.Walk | skills/azure-devops-boards/references/extract-hierarchy.py:118-127 | `walk(node, prefix)` writes the node and then its subtrees in order, as Flatten lists them |
| ExtractIterations.FlattenTree | skills/azure-devops-boards/references/extract-hierarchy.py:129-130 | the top-level loop walks every root with an empty prefix |
| ExtractIterations.FlattenAllMembers | skills/azure-devops-boards/references/extract-hierarchy.py:126-130 | a forest's writes are exactly those of its trees |
| ExtractIterations.WalkRecordsNode | skills/azure-devops-boards/references/extract-hierarchy.py:118-127 | every node of the tree is written under its ancestors' names joined by backslashes, with its own dates |
| ExtractIterations.WalkRecordsOnlyNodes | skills/azure-devops-boards/references/extract-hierarchy.py:118-127 | nothing else is written: each write is some node under its path |
| ExtractIterations.ApplyKeys | skills/azure-devops-boards/references/extract-hierarchy.py:122 | after a run of writes a key is present exactly when it was before or was written, and an unwritten key keeps its value |
| ExtractIterations.ApplyLast | skills/azure-devops-boards/references/extract-hierarchy.py:122 | the last write to a key decides its value |
| ExtractIterations.DatePart | skills/azure-devops-boards/references/extract-hierarchy.py:137-140 | a date is kept only when it is present and non-empty, and then cut to its first 10 characters |
| ExtractIterations.MatchDates | skills/azure-devops-boards/references/extract-hierarchy.py:133-143 | one entry per requested path, in request order, with the dates of the node at that path, and no entry for any other path |
| ExtractIterations.FetchIterationDates | skills/azure-devops-boards/references/extract-hierarchy.py:110-143 | `fetch_iteration_dates` on a fetched tree: one entry per requested path, in request order, each with the date parts of the node written under that path |
| ExtractIterations.NodeDatesReported | skills/azure-devops-boards/references/extract-hierarchy.py:116-143 | when no two nodes share a path, a requested path that names a node reports that node's dates, cut to their date part |
| ExtractLinks.Sift | skills/azure-devops-boards/references/extract-hierarchy.py:175-177 | a filtered level is never longer than the level it comes from |
| ExtractLinks.SiftMembers | skills/azure-devops-boards/references/extract-hierarchy.py:175-189 | an item survives a filter exactly when it was there and passes: not Removed, of type Feature, or of any other type |
| ExtractLinks.SiftConcat | skills/azure-devops-boards/references/extract-hierarchy.py:175-177 | filtering keeps fetch order |
| ExtractLinks.TypePartition | skills/azure-devops-boards/references/extract-hierarchy.py:176-177 | features and orphans partition the surviving level-2 items: each item lands in exactly one of them |
| ExtractLinks.ParentLinksKeys | skills/azure-devops-boards/references/extract-hierarchy.py:167-172 | a child has a recorded parent exactly when some parent lists it |
| ExtractLinks.ParentLinksLast | skills/azure-devops-boards/references/extract-hierarchy.py:167-172 | the recorded parent is the last parent in fetch order that lists the child |
| ExtractLinks.LinkOne | skills/azure-devops-boards/references/extract-hierarchy.py:170-172 | the inner loop appends one parent's child ids and records that parent for each |
| ExtractLinks.LinkChildren | skills/azure-devops-boards/references/extract-hierarchy.py:167-172 | the outer loop collects every child id in order and the child-to-parent dictionary |
| ExtractLinks.ChildrenOfMembers | skills/azure-devops-boards/references/extract-hierarchy.py:193-209 | an item is in a parent's group exactly when it is in the level and that parent is recorded for it |
| ExtractLinks.ChildrenDisjoint | skills/azure-devops-boards/references/extract-hierarchy.py:193-209 | an item is grouped under one parent at most |
| ExtractLinks.ChildrenOfStranger | skills/azure-devops-boards/references/extract-hierarchy.py:193-209 | an id recorded as nobody's parent has no group |
| ExtractLinks.GroupsLookup | skills/azure-devops-boards/references/extract-hierarchy.py:217 | `groups.get(pid, [])` is exactly that parent's children, in level order |
| ExtractLinks.GroupByParent | skills/azure-devops-boards/references/extract-hierarchy.py:193-209 | the `setdefault` loop builds a key per parent with children, each listing them in level order |
| ExtractAreas.LeaderIndex | skills/azure-devops-boards/references/extract-hierarchy.py:231 | the leading candidate is one of the candidates |
| ExtractAreas.LeaderBest | skills/azure-devops-boards/references/extract-hierarchy.py:231 | the leader has the highest count, and every candidate before it counts less |
| ExtractAreas.LeaderFirstOfTies | skills/azure-devops-boards/references/extract-hierarchy.py:231 | a candidate tying with the leader does not come before it |
| ExtractAreas.MostCommon | skills/azure-devops-boards/references/extract-hierarchy.py:231 | `Counter(xs).most_common(1)[0][0]` is one of the values |
| ExtractAreas.MostCommonIsMost | skills/azure-devops-boards/references/extract-hierarchy.py:231 | no value occurs more often than the chosen one |
| ExtractAreas.MostCommonFirstSeen | skills/azure-devops-boards/references/extract-hierarchy.py:231 | among values that occur equally often, the chosen one is seen first |
| ExtractAreas.ExportPbis | skills/azure-devops-boards/references/extract-hierarchy.py:222-225 | one record per PBI, in order, with stripped area and iteration |
| ExtractAreas.RealAreas | skills/azure-devops-boards/references/extract-hierarchy.py:226-227 | `pbi_areas` is never longer than the PBI list |
| ExtractAreas.RealAreasMembers | skills/azure-devops-boards/references/extract-hierarchy.py:226-227 | an area is in `pbi_areas` exactly when some PBI has it and it is not the project root |
| ExtractAreas.FeatureArea | skills/azure-devops-boards/references/extract-hierarchy.py:219-231 | a feature keeps its own stripped area unless that is the project root and some PBI has a real area; then the area is not the root |
| ExtractAreas.FeatureAreaFromPbis | skills/azure-devops-boards/references/extract-hierarchy.py:228-231 | on the root area a feature takes the PBI area with the highest count, and the first seen of those when several tie |
| ExtractTree.ExportFeatures | skills/azure-devops-boards/references/extract-hierarchy.py:217-237 | one feature record per grouped feature, in group order |
| ExtractTree.ExportEpics | skills/azure-devops-boards/references/extract-hierarchy.py:212-254 | one epic record per fetched epic, in fetch order |
| ExtractTree.AssembleFeature | skills/azure-devops-boards/references/extract-hierarchy.py:217-237 | a feature record has the feature's id and title, its PBIs' records, and the fallback area |
| ExtractTree.AssembleEpic | skills/azure-devops-boards/references/extract-hierarchy.py:213-254 | an epic record has the epic's id and title, its features' records and its orphans' records |
| ExtractTree.AssembleEpics | skills/azure-devops-boards/references/extract-hierarchy.py:212-254 | the assembly loop emits one record per fetched epic, in fetch order |
| ExtractTree.Hierarchy | skills/azure-devops-boards/references/extract-hierarchy.py:146-256 | the root is missing exactly when none is fetched; `ValueError` exactly when a parsed link (the root's, then, when it has children, an epic's or a live Feature's) does not end in a number; otherwise the root's id and title, no epics when it has no children, and one epic per fetched epic, in fetch order |
| ExtractTree.UnparsedLinksIgnored | skills/azure-devops-boards/references/extract-hierarchy.py:153-186 | links on items the script never parses (a second root, orphans, removed level-2 items) cannot change the outcome |
| ExtractTree.Extract | skills/azure-devops-boards/references/extract-hierarchy.py:146-256 | `extract` ends with the specified outcome: the exit on a missing root, the `ValueError` of a malformed parsed link, or the initiative record |
| ExtractTree.InGroup | skills/azure-devops-boards/references/extract-hierarchy.py:193-209 | a group holds exactly the items of its level with the group's parent recorded |
| ExtractTree.Level2Members | skills/azure-devops-boards/references/extract-hierarchy.py:167-177 | a fetched level-2 item is kept exactly when it is live and some epic lists it |
| ExtractTree.EpicFeatureSources | skills/azure-devops-boards/references/extract-hierarchy.py:199-203 | the features under an epic are the live level-2 Features whose recorded epic it is |
| ExtractTree.EpicOrphanSources | skills/azure-devops-boards/references/extract-hierarchy.py:205-209 | the orphans under an epic are the live level-2 items of any other type whose recorded epic it is |
| ExtractTree.FeaturePbiSources | skills/azure-devops-boards/references/extract-hierarchy.py:193-197 | the PBIs under a feature are the live level-3 items whose recorded feature it is |
| ExtractTree.FeaturePlaced | skills/azure-devops-boards/references/extract-hierarchy.py:212-237 | every live level-2 Feature is written as a feature record under the epic recorded for it |
| ExtractTree.FeatureFrom | skills/azure-devops-boards/references/extract-hierarchy.py:212-237 | every feature record under an epic comes from a live level-2 Feature recorded under that epic |
| ExtractTree.OrphanPlaced | skills/azure-devops-boards/references/extract-hierarchy.py:239-247 | every live level-2 item of another type is written as an orphan of the epic recorded for it |
| ExtractTree.OrphanFrom | skills/azure-devops-boards/references/extract-hierarchy.py:239-247 | every orphan record under an epic comes from a live non-Feature item recorded under that epic |
| ExtractTree.PbiPlaced | skills/azure-devops-boards/references/extract-hierarchy.py:220-225 | every live level-3 item recorded under a feature is written among that feature's PBIs |
| ExtractTree.PbiFrom | skills/azure-devops-boards/references/extract-hierarchy.py:220-225 | every PBI record of a feature comes from a live level-3 item recorded under that feature |

## Left out

- Command-line handling, JSON file reading and writing, and the stderr diagnostics of the three `main` functions: these are I/O.
- Azure DevOps access. The `az rest` subprocesses (`az_rest_get`, `get_work_items`, the WIQL POST of `resolve_id`, and the classification-node fetch) are network calls.
  - Their replies are parameters: `ExtractTree.Replies` holds the four `get_work_items` results, and the iteration tree is a list of `ExtractIterations.IterNode` roots.
  - The WIQL search result and `sys.exit` are not modelled. `ExtractRefs.ResolveRef` stops at the query text.
  - The missing root (`sys.exit(1)`) is the `RootMissing` outcome of `ExtractTree.Hierarchy`.
- XML construction with `xml.etree.ElementTree`, the `mxGraphModel` attributes, the style strings and the HTML label markup are calls into a foreign library. Each `cell(...)` call is a box record: what it stands for and its geometry. The id and text follow from what it stands for.
- The legend boxes and the stats tallies of both generators, and the texts of the title and subtitle (project name, extraction date). The legend sits at fixed offsets from `legend_y` and the stats only count things; only the legend's position and size enter the model, through the page height. The title, subtitle, rotated header and the timeline's axis header are modelled (`PageChrome`): their widths follow the widest grid and the rotated header follows the content height. They are kept apart from the grid boxes because the title or the subtitle ends past `page_w` on every page (`TitlesPastPage`), so the page-bound lemmas (`DrawingWithinPage`, `GeneratedWithinPage`, `DiagramWithinPage`) speak of the grid boxes only.
- HierarchyMetrics.FeatLabelH: the float `169 / 5.5` and `math.ceil` are replaced by the exact integer ceiling of 11·len/338. Float rounding at exact multiples is not modelled. The `max(..., 10)` never binds with these constants.
- HierarchyRender.RenderAreas: the label and lane cells are keyed by the area itself, not by their ids. Both scripts build the id by lowering the area and replacing spaces (the timeline, gen-timeline.py:241, also backslashes); `Geometry.AreaCellId` models that with ASCII lowering only (Unicode case mapping is not modelled). The id map is not one-to-one (`Geometry.AreaCellIdCollides`): "Web App" and "web_app" get the same id, so the script can emit two cells with one id where the model's boxes stay distinct. The same holds for `TimelineLayout.RenderAreaRows`.
- TimelineLayout.DateRange: the script raises on an iteration with a start date but no finish date (`info['finish']`), or on a date `format_date` cannot read. The model gives the header no date line there. Those inputs crash the script, so this is not a promised behaviour.
- TimelineOrder.FormatDate: a date Python cannot parse is `None` rather than an exception. A month of 0 or less indexes `months` from the end, as Python does.
- Text.ParseInt: `int()` also accepts surrounding whitespace, underscores between digits and non-ASCII digits. The model accepts only an optional sign followed by ASCII digits.
- ExtractRefs.ChildIds: requires that every forward link ends in an integer (`WellLinked`), where `get_child_ids` raises `ValueError` otherwise. Its callers check first: `ExtractTree.Hierarchy` and `ExtractTree.Extract` turn a malformed link on the root, an epic or a live Feature into the `BadLink` outcome.
- ExtractIterations.MatchDates: the `"path"` field of each entry is the dictionary key, so it is not stored again. A node's dates are an `Option<string>` each; a non-string JSON value is not modelled.
- TimelineOrder.DatedPaths: the "iterations" dictionary is a list of (path, dates) pairs in key order. A JSON object has unique keys; the model does not require that, and counts a repeated key as often as it occurs. An entry with `"start": null` counts as undated in the model, and the script's JSON never holds one.
- HierarchyGroups.FindInitiativeGroups: each group is returned as the list of its members' positions in `initiatives`. `HierarchyDiagram.GroupInits` turns the positions into the initiatives themselves.
- HierarchyGroups.UnionFind: the class carries proof-only `rank` and `bound` fields to show that following parent links terminates. The script has no such fields.
- Collections.SortSet: Python enumerates a set in an order of its own. The model takes the elements in any order, and the result does not depend on it.
- `row_heights` and `row_y` are dictionaries keyed by area in the scripts. The areas are distinct, so the model keeps them as lists in area order.
