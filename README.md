# Road, water-body and contour validation rules — a Dafny model

This project models the validation logic of a set of QGIS processing scripts
for a topographic database. Each script reads vector layers, matches features
across layers by id, key or coordinate, and applies a rule to each feature.
It then writes classified records to an output layer, or writes a
classification back into the input layer. Four groups of rules are modelled.

- **Roads and lanes** (`algorithms/Projeto4/solucao.py`):
  - the lane/track range rule, with its integer coercion and batch progress;
  - derivation of a point layer from a line layer (one point per vertex, or one point on the surface);
  - rule 5: the join of elements and road points by id;
  - the string-embedded older variants: the "Classificacao" cascade, rules 3 and 4, and the rule 2 "multiple intersection" grouping.
- **Water bodies and dams** (`algorithms/Projeto4/solucao_complementar.py`):
  - the "erro borda" border rule over a spatial index, with cancellation and progress;
  - the dam/road overlap rule "Erro 7", with its first-vertex output point.
- **Change detection** (`programacao_aplicada_grupo3_projeto3.py`): a two-pass, cancellable comparison of two snapshots joined on a primary-key attribute. It produces "Modificada", "Removida" and "Adicionada" records.
- **Contours** (`programacao_aplicada_grupo_3_projeto_2.py`): contours are kept when their elevation is a multiple of the scale's interval, and tagged 'mestra' or 'normal'.

## How the model is built

- Layers are sequences of `Feature(id, attrs, geom)`. Attribute values are `IntV`, `RealV`, `StrV` or `Null`.
- Python's `==` between attribute values, which also decides dict and set keys, is `PyEq`. It compares through `Norm`, so `2 == 2.0`.
- `int(v)` is `ParseInt`, which returns `None` where Python raises.
- Geometry predicates are function parameters: `within`, `equals`, `pointOnSurface`, and the spatial index's candidate ids.
- Vertices and first points are computed from an explicit part list.
- The code that changes state in place is imperative Dafny:
  - `Host.VectorLayer` is an editable layer;
  - `Host.Sink` is an output provider that is only appended to;
  - `Host.Feedback` holds cancellation and progress.
- Each loop is a method proved against a specification function over the input. The lemmas state what the source promises about that function.
- Cancellation is a user action that arrives after some number of polls. Once a poll has seen it, every later poll sees it too.

Files: `features.dfy` (values, geometry, Python helpers), `host.dfy` (host objects), `lane_rules.dfy`, `point_rules.dfy`, `dam_rules.dfy`, `change_detection.dfy`, `contours.dfy`.

## Model

| member | source | states |
|---|---|---|
| Features.SetAttr | algorithms/Projeto4/solucao_complementar.py:116-119 | setting one attribute keeps id and geometry, sets that attribute, and leaves every other attribute unchanged |
| Features.PyEqNumeric | algorithms/Projeto4/solucao.py:151 | an integer and a float attribute are `==` exactly when they denote the same number |
| Features.PyEqIsEquivalence | algorithms/Projeto4/solucao.py:150-153 | attribute `==` is reflexive, symmetric and transitive, so it can serve as a dict/set key |
| Features.Trunc | algorithms/Projeto4/solucao.py:72-80 | `int()` of a float truncates toward zero: the result is within one of the float, on the side of zero |
| Features.StripLeft | algorithms/Projeto4/solucao.py:72-80 | stripping leading whitespace leaves a suffix of the text, every removed character is Python whitespace (ASCII separators and controls `\t`-`\r`, `\x1c`-`\x1f`, and the Unicode spaces), and the suffix starts with none |
| Features.StripRight | algorithms/Projeto4/solucao.py:72-80 | stripping trailing whitespace leaves a prefix of the text, every removed character is Python whitespace, and the prefix ends with none |
| Features.ParseIntStripsControls | algorithms/Projeto4/solucao.py:72-80 | `int()` reads a digit between a vertical tab and a form feed as that digit |
| Features.ParseIntStripsSeparators | algorithms/Projeto4/solucao.py:72-80 | `int()` reads a negative digit between a unit separator and a no-break space as that negative number |
| Features.ParseIntOfDecimal | algorithms/Projeto4/solucao.py:72-80 | `int(str(n)) == n` for every integer, negative ones included |
| Features.AsPoint | algorithms/Projeto4/solucao.py:159 | `asPoint()` yields the point exactly for a single-point geometry |
| Features.FindById | algorithms/Projeto4/solucao.py:171 | `getFeature(id)` finds a feature with that id, and finds nothing exactly when no feature has it |
| Features.FindByIdUnique | algorithms/Projeto4/solucao.py:644 | in a layer with unique ids, `getFeature(f.id())` returns `f` itself |
| Features.IndexOf | algorithms/Projeto4/solucao_complementar.py:77 | `indexOf(name)` is -1 exactly when the field is absent; otherwise it is the first position holding that name |
| Features.EnsureFieldIdempotent | algorithms/Projeto4/solucao_complementar.py:77-83 | adding "Classificacao" only when `indexOf` is -1 makes a second run add nothing; the field is then present |
| Features.WithNullAttribute | algorithms/Projeto4/solucao_complementar.py:80-82 | a newly added field reads NULL in every feature, and the layer's other attributes, ids and geometries are unchanged |
| Features.ConcatMapConcat | algorithms/Projeto4/solucao.py:126-136 | the records written for a concatenated layer are those of each part, in order |
| Features.FilterSpec | algorithms/Projeto4/solucao.py:89-90 | a filtered list holds exactly the kept elements, is no longer than its input, and is a subsequence of it (input order) |
| Host.Feedback.IsCanceled | algorithms/Projeto4/solucao_complementar.py:90 | the poll answers "cancelled" exactly once cancellation has arrived, and keeps answering it |
| Host.Feedback.SetProgress | algorithms/Projeto4/solucao_complementar.py:125 | a progress report is appended to the reports |
| Host.PercentBounds | algorithms/Projeto4/solucao_complementar.py:125 | `current_count*100/total_count` lies in [0,100] and is 100 on the last feature |
| Host.Sink.AddFeature | algorithms/Projeto4/solucao.py:98 | `addFeature` appends one record and changes nothing else |
| Host.VectorLayer.AddAttribute | algorithms/Projeto4/solucao_complementar.py:80-82 | the field is appended, and every feature holds NULL in it |
| Host.VectorLayer.UpdateFeature | algorithms/Projeto4/solucao_complementar.py:121 | `updateFeature` replaces exactly one feature |
| LaneRules.CoercedCount | algorithms/Projeto4/solucao.py:72-86 | the coerced count is at least 1; it is the parsed value when that is at least 1, and 1 when parsing fails or the value is below 1 |
| LaneRules.RangeViolationIsOrder | algorithms/Projeto4/solucao.py:89 | the as-written test, with its `< 1` disjuncts, flags exactly the features whose coerced pistas exceed their coerced faixas |
| LaneRules.RangeScenarios | algorithms/Projeto4/solucao.py:72-89 | 3 pistas / 2 faixas is flagged; 2/3 is not |
| LaneRules.UnreadableCountIgnored | algorithms/Projeto4/solucao.py:72-89 | a pistas text that does not start like a number (such as "abc") reads as 1 and is not flagged against 4 faixas |
| LaneRules.PaddedCountFlagged | algorithms/Projeto4/solucao.py:72-89 | a blank-padded count of 2 to 9 pistas over NULL faixas (read as 1) is flagged |
| LaneRules.BatchProgressBounds | algorithms/Projeto4/solucao.py:101-103 | progress is reported once per full batch of 10 features, and every reported value lies in [0,100] |
| LaneRules.SurfaceRows | algorithms/Projeto4/solucao.py:93-98 | one point per feature, in order, carrying that feature's attributes on its surface point |
| LaneRules.CheckLaneCounts | algorithms/Projeto4/solucao.py:68-89 | the step-by-step coercion and test yields the range rule's verdict |
| LaneRules.CheckOneLane | algorithms/Projeto4/solucao.py:67-103 | one iteration extends the flagged list by the feature exactly when it violates the rule, writes its surface point when classifying, and reports progress when the count reaches a multiple of 10 |
| LaneRules.CheckAllLaneCounts | algorithms/Projeto4/solucao.py:67-103 | the loop returns the violating features in input order, writes a surface point per feature when classifying, and reports the batch progress |
| LaneRules.ValidateLaneCounts | algorithms/Projeto4/solucao.py:46-103 | fails, with nothing written, exactly when `nr_pistas` or `nr_faixas` is missing; otherwise returns the flagged features in input order, writes a surface point per feature when classifying, and reports the batch progress |
| LaneRules.VertexRowsCount | algorithms/Projeto4/solucao.py:126-136 | the number of points is the total vertex count of the lines; an empty geometry contributes none |
| LaneRules.VertexRowsBlock | algorithms/Projeto4/solucao.py:126-136 | a feature's points form one contiguous block, one per vertex in vertex order, each with that feature's attributes |
| LaneRules.CreateVertexPointLayer | algorithms/Projeto4/solucao.py:114-142 | the new point layer holds exactly the vertex points of the line layer |
| LaneRules.CreateSurfacePointLayer | algorithms/Projeto4/solucao.py:257-286 | the new point layer holds one surface point per line, in order, with that line's attributes; a line without a geometry is not skipped |
| LaneRules.ClassificationSpec | algorithms/Projeto4/solucao.py:319-340 | the label is one of four values. It is "Erro Material" exactly for tipo 401 with material 3, or inconsistent counts. It is "Correto" or "Erro Abandono" exactly by situacao_fisica 3 or 1 when no error applies. Unparsable counts never make the counts inconsistent. |
| LaneRules.CascadeStricterThanRangeRule | algorithms/Projeto4/solucao.py:332-340 | with parsable counts the range rule's violations are cascade errors; a count of 0 pistas is an error in the cascade but not in the range rule |
| LaneRules.Classified | algorithms/Projeto4/solucao.py:342-344 | one labelled copy per point, in order |
| LaneRules.ClassifyPoint | algorithms/Projeto4/solucao.py:319-340 | the step-by-step overwriting of the label yields the cascade's label |
| LaneRules.LabelPoints | algorithms/Projeto4/solucao.py:310-344 | every point gets its cascade label, in place |
| LaneRules.AddAndUpdateClassification | algorithms/Projeto4/solucao.py:288-347 | "Classificacao" is added only if absent; the points are labelled when all five fields exist, and otherwise are left as they were |
| PointRules.ErrorRowInjective | algorithms/Projeto4/solucao.py:556-561 | two error records of a rule are equal exactly when id and geometry are |
| PointRules.ErrorRows | algorithms/Projeto4/solucao.py:557-561 | one (ID, label) record per flagged feature, on its geometry, in order |
| PointRules.FlaggedRowFor | algorithms/Projeto4/solucao.py:553-561 | with unique ids, a feature has an error record exactly when the rule flags it |
| PointRules.EmitFlagged | algorithms/Projeto4/solucao.py:553-561 | the error layer holds the records of the flagged features, in input order |
| PointRules.Rule3 | algorithms/Projeto4/solucao.py:530-567 | the error layer holds "Erro Regra 3" records for the flagged elements, in order |
| PointRules.Rule3Spec | algorithms/Projeto4/solucao.py:539-561 | an element is reported exactly when its id is in all three layers and its tipo is not 501, 203 or 401 |
| PointRules.Rule4 | algorithms/Projeto4/solucao.py:620-657 | the error layer holds "Erro da Regra 4" records for the flagged elements, in order |
| PointRules.Rule4Spec | algorithms/Projeto4/solucao.py:627-651 | an element is reported exactly when its tipo is 501, 203 or 401, a road point shares its id, that road point has tipo 2, and no drainage point shares the id |
| PointRules.Elements203 | algorithms/Projeto4/solucao.py:150 | the dict maps each id to a type-203 element with that id, and every type-203 element's id is a key |
| PointRules.ValidPoints | algorithms/Projeto4/solucao.py:153-159 | valid ids are type-203 ids that are also road-point ids (the set a run that does not abort computes) |
| PointRules.Rule5AbortsSpec | algorithms/Projeto4/solucao.py:150-159 | with unique ids, `asPoint()` aborts the rule exactly when some type-203 element sharing its id with a road point is not a single point |
| PointRules.Rule5AbortsOnMultiPoint | algorithms/Projeto4/solucao.py:159 | a type-203 element stored as a one-point multi-point, sharing its id with a road point, aborts the rule |
| PointRules.ValidPointsSpec | algorithms/Projeto4/solucao.py:150-159 | with unique ids, an element is valid exactly when it is type 203, shares its id with a road point, and is a point lying on some road-line vertex; when the run does not abort, every candidate is such a point |
| PointRules.Mismatched | algorithms/Projeto4/solucao.py:170-174 | only valid ids can be mismatched |
| PointRules.Rule5Errors | algorithms/Projeto4/solucao.py:170-181 | ids outside the valid points are never reported |
| PointRules.Rule5Spec | algorithms/Projeto4/solucao.py:150-181 | with unique ids, an element is reported exactly when it is valid and differs from its road point in nr_pistas, nr_faixas or situacao_fisica |
| PointRules.ValidatePoints | algorithms/Projeto4/solucao.py:144-185 | fails, writing nothing, exactly when `asPoint()` raises for a candidate; otherwise one "Erro na Regra 5" record per reported id, with the element's geometry, and no other records |
| PointRules.VisitCandidates | algorithms/Projeto4/solucao.py:170-181 | after visiting every candidate id once, the rows written are one per mismatched id, with no id written twice |
| PointRules.EmittedSoFarStep | algorithms/Projeto4/solucao.py:170-181 | visiting a new id writes its row exactly when it is mismatched |
| PointRules.EmittedRows | algorithms/Projeto4/solucao.py:170-181 | rows written once per reported id form exactly the set of their error records, as many as there are ids |
| PointRules.EmitMismatched | algorithms/Projeto4/solucao.py:170-181 | the loop over the valid-id set writes one record per mismatched id |
| PointRules.DistinctCardinality | algorithms/Projeto4/solucao.py:170 | visiting each set element once writes as many records as the set has elements |
| PointRules.OccurrencesPositive | algorithms/Projeto4/solucao.py:439-446 | a coordinate has a group exactly when some intersection lies there |
| PointRules.KeyOrderSpec | algorithms/Projeto4/solucao.py:439-449 | the dict's keys are the distinct coordinates, each once |
| PointRules.Repeat | algorithms/Projeto4/solucao.py:451-455 | a group writes one record per member |
| PointRules.MultipleIntersectionsSpec | algorithms/Projeto4/solucao.py:449-455 | a coordinate gets as many "Interseção múltipla" records as intersections lie there when there are at least two, and none otherwise |
| PointRules.GroupByPosition | algorithms/Projeto4/solucao.py:439-446 | the grouping loop builds the dict: its keys in first-seen order, and the size of each group |
| PointRules.DetectMultipleIntersections | algorithms/Projeto4/solucao.py:439-455 | the error sink holds the records of every group with more than one member, group by group |
| DamRules.HitAtIndexFree | algorithms/Projeto4/solucao_complementar.py:102-110 | when the index returns every dam whose geometry contains the vertex, the candidate search finds a dam exactly when some dam contains the vertex |
| DamRules.AnyCandidateWithin | algorithms/Projeto4/solucao_complementar.py:104-110 | the candidate loop with its early break answers whether some candidate contains the vertex |
| DamRules.ScanVertices | algorithms/Projeto4/solucao_complementar.py:96-112 | a reported hit is a real hit, and without cancellation the scan finds a hit exactly when one exists |
| DamRules.Labelled | algorithms/Projeto4/solucao_complementar.py:114-119 | the label is "erro borda" for a hit and "Correto" otherwise |
| DamRules.EachProgressBounds | algorithms/Projeto4/solucao_complementar.py:124-125 | one progress report per processed feature, each in [0,100], the last 100 when all are processed |
| DamRules.LabelOne | algorithms/Projeto4/solucao_complementar.py:93-121 | one water body is labelled and updated in place; the label is sound, and exact when not cancelled |
| DamRules.LabelStep | algorithms/Projeto4/solucao_complementar.py:93-125 | after a poll that did not see cancellation, the next body is labelled soundly (exactly unless cancelled during its scan), added to the returned list exactly when labelled "erro borda", and a progress report is made |
| DamRules.LabelBorders | algorithms/Projeto4/solucao_complementar.py:89-125 | the processed features are a prefix, stopped only by cancellation; each is labelled once, soundly, and exactly unless cut short; the returned list is the processed "erro borda" features in order |
| DamRules.ValidateBorders | algorithms/Projeto4/solucao_complementar.py:71-134 | the field is added only if absent, then every processed water body is labelled; the rest of the layer is unchanged |
| DamRules.BordersLabelledStep | algorithms/Projeto4/solucao_complementar.py:114-121 | labelling the next feature extends the labelled prefix by one |
| DamRules.OverlapIds | algorithms/Projeto4/solucao_complementar.py:138-144 | the overlap set is the intersection of the dam ids and the road ids |
| DamRules.Erro7IsDisagreement | algorithms/Projeto4/solucao_complementar.py:151-157 | a dam is "Erro 7" exactly when being in the overlap disagrees with `sobreposto_transportes == 1` |
| DamRules.FirstPointIsFirstVertex | algorithms/Projeto4/solucao_complementar.py:163-168 | the output point is the first vertex of the geometry, and exists whenever the first part is non-empty |
| DamRules.AddPointFeature | algorithms/Projeto4/solucao_complementar.py:159-172 | appends the first-vertex point with `[id, classificacao]`; fails (IndexError) and appends nothing when there is no first point |
| DamRules.Erro7RunSpec | algorithms/Projeto4/solucao_complementar.py:151-157 | the run fails exactly when some "Erro 7" dam has no first point; otherwise it writes one point per "Erro 7" dam, in order |
| DamRules.Erro7RunStops | algorithms/Projeto4/solucao_complementar.py:151-157 | after the first failure nothing more is written |
| DamRules.CreatePointsFromDams | algorithms/Projeto4/solucao_complementar.py:136-157 | the output holds what the rule writes before it stops, and reports whether it stopped |
| DamRules.ValidateWaterAndDams | algorithms/Projeto4/solucao_complementar.py:55-69 | the "Classificacao" field is ensured; the first `processed` water bodies are labelled as the border rule says (every "erro borda" right, every label exact except the one in flight at cancellation), the rest are untouched, and one progress report per labelled body is made; then the "Erro 7" points are written, or the run fails where a flagged dam has no first point |
| ChangeDetection.ComparedAttributesSpec | programacao_aplicada_grupo3_projeto3.py:81 | the compared attributes are the day-1 fields that are not ignored, in field order |
| ChangeDetection.CompareAttributes | programacao_aplicada_grupo3_projeto3.py:195-202 | the comparison loop returns the names whose values differ, in list order |
| ChangeDetection.CompareAttributesSpec | programacao_aplicada_grupo3_projeto3.py:195-202 | a name is returned exactly when it is compared and its two values are unequal; the result is a subsequence; a feature compared with itself yields nothing |
| ChangeDetection.KeyIndex | programacao_aplicada_grupo3_projeto3.py:111 | every day-2 key is in the dict, and each entry is a day-2 feature with that key |
| ChangeDetection.KeyIndexLastWins | programacao_aplicada_grupo3_projeto3.py:111 | for a repeated key the dict keeps the last feature |
| ChangeDetection.JoinEmptyOnlyWhenNothing | programacao_aplicada_grupo3_projeto3.py:130 | the joined detail of non-empty names is empty only for an empty list |
| ChangeDetection.Pass1Members | programacao_aplicada_grupo3_projeto3.py:114-138 | every first-pass record is "Modificada" for a matched day-1 feature or "Removida" for an unmatched one, with its key and geometry |
| ChangeDetection.Pass2Members | programacao_aplicada_grupo3_projeto3.py:141-154 | a day-2 feature yields `[id, "Adicionada", ""]` exactly when its key is not a day-1 key |
| ChangeDetection.RemovedKeysReported | programacao_aplicada_grupo3_projeto3.py:133-138 | every day-1 feature whose key is missing on day 2 yields `[id, "Removida", ""]` with its geometry |
| ChangeDetection.ModifiedIff | programacao_aplicada_grupo3_projeto3.py:120-132 | a matched feature yields one "Modificada" record exactly when some compared attribute or the geometry differs, and nothing exactly when neither differs |
| ChangeDetection.RemovedAndAddedDisjoint | programacao_aplicada_grupo3_projeto3.py:114-154 | no key is both removed and added |
| ChangeDetection.Compare | programacao_aplicada_grupo3_projeto3.py:117-138 | the body of the first loop writes the first-pass record of one feature |
| ChangeDetection.FirstPass | programacao_aplicada_grupo3_projeto3.py:114-138 | the first pass writes the records of a processed prefix of day 1, stopping only on cancellation |
| ChangeDetection.SecondPass | programacao_aplicada_grupo3_projeto3.py:141-154 | the second pass writes the records of a processed prefix of day 2, stopping only on cancellation, and writes nothing when already cancelled |
| ChangeDetection.IdentifyChanges | programacao_aplicada_grupo3_projeto3.py:107-154 | both passes run in order; if the first pass stopped early, the second writes nothing |
| ChangeDetection.CancelledRunIsPrefix | programacao_aplicada_grupo3_projeto3.py:114-154 | what a cancelled run writes is a prefix of what an uncancelled run writes |
| ChangeDetection.DetectChanges | programacao_aplicada_grupo3_projeto3.py:69-96 | the compared attributes are computed, then the two passes run |
| Contours.EquidistanceTable | programacao_aplicada_grupo_3_projeto_2.py:478-486 | the four scales map to 10, 20, 50 and 100; every selectable scale has a positive interval; other text gives none |
| Contours.MultipleOf | programacao_aplicada_grupo_3_projeto_2.py:126 | `cota % m == 0` has an answer exactly for numeric elevations; text and NULL raise |
| Contours.MestraIsMultiple | programacao_aplicada_grupo_3_projeto_2.py:126-127 | a multiple of five intervals is a multiple of one interval, so every 'mestra' contour passes the keep test |
| Contours.ContourRowsSpec | programacao_aplicada_grupo_3_projeto_2.py:124-133 | the loop fails exactly when some elevation is not a number; otherwise it writes the kept contours in input order, each with all input attributes, its tag, and its geometry |
| Contours.ContourRowsBounds | programacao_aplicada_grupo_3_projeto_2.py:124-133 | the output is no larger than the input, and every tag is 'mestra' or 'normal' |
| Contours.ContourScenarios | programacao_aplicada_grupo_3_projeto_2.py:126-127 | with interval 20: 100 is 'mestra', 120 'normal', 115 dropped, 100.0 'mestra', text raises |
| Contours.CopyContours | programacao_aplicada_grupo_3_projeto_2.py:124-133 | the loop appends exactly the contour records, and fails exactly when an elevation is not a number |
| Contours.ContourRowsPrefix | programacao_aplicada_grupo_3_projeto_2.py:124-126 | a failure on some contour is a failure of the whole run |
| Contours.ClassifyContours | programacao_aplicada_grupo_3_projeto_2.py:107-138 | the chosen scale's interval is positive; the new layer holds the contour records; the empty-layer warning is raised exactly when it is empty |

## Left out

- QGIS and processing plumbing is not modelled: parameter declarations, algorithm names, `mapLayersByName` lookups, CRS strings, `print` and `feedback.push*` messages, and edit sessions (`startEditing`/`commitChanges`). Changes are visible at once.
- The geometry engine is not modelled. `within`, `equals`, `pointOnSurface` and the spatial index are parameters; the index is only assumed to return the containing dams in `HitAtIndexFree`. Coordinates are compared by exact equality.
- A `NullGeom` stands for the host's empty geometry. `feature.geometry()` never returns `None`, so the `geometry is None` tests of the point-layer derivation (algorithms/Projeto4/solucao.py:126-136 and 269-271) never fire. The vertex form writes nothing for an empty geometry because it has no vertices. The surface form writes a record for it whose geometry is what `pointOnSurface()` returns, which the model leaves to the `surface` parameter.
- `processing.run("native:lineintersections")` (algorithms/Projeto4/solucao.py:435) is a foreign call. Its output is the input sequence of points of `DetectMultipleIntersections`.
- Floating-point progress is modelled with exact integers. `Percent` and `BatchProgress` compute `count*100/total` with integer division, which is what `int(count/total*100)` yields unless rounding of the float intervenes.
- The unused `step` of the border rule (algorithms/Projeto4/solucao_complementar.py:86) is not modelled. Nor is the unused `tolerancia` parameter of change detection.
- `ParseInt` models `int()` on integers, floats (truncation), NULL (TypeError) and decimal text with an optional sign and surrounding Python whitespace (every character `str.isspace()` accepts). Underscore separators and non-ASCII digits are not modelled.
- `Get` reads a missing field as NULL. Where the source indexes `feature[name]` for an absent field, Python raises KeyError instead. The range rule and the cascade check their fields first. Rule 5, rules 3 and 4, the contour loop, the "Erro 7" test of `sobreposto_transportes` (algorithms/Projeto4/solucao_complementar.py:153-156, where a missing field makes the model flag every overlapping dam), the read of the primary key on day 2 (programacao_aplicada_grupo3_projeto3.py:111), and the comparison of a day-1 field that day 2 lacks do not check.
- `parameterAsSink` returns a `(sink, id)` pair that the two Projeto4 `processAlgorithm`s use as if it were the sink itself (algorithms/Projeto4/solucao.py:48, algorithms/Projeto4/solucao_complementar.py:59). The model hands them a sink.
- The "Erro 7" points are modelled as records with attributes "id" and "Classificação". The source sets them positionally on a sink declared with no fields.
- The change records are modelled as `Change(key, kind, detail, geom)`. The source sets them positionally on a sink with the day-1 fields.
- The contour records are modelled as maps. The source writes them positionally, so a source layer that already has a `tipo` field would shift the values; that case is not modelled.
- `if feature_proxima:` is modelled as "the key is in the dict". A matched day-2 feature always carries the key attribute, so it is never falsy.
- The output of `DetectMultipleIntersections` is modelled as records carrying only the "erro" label.
- The contour text-elevation case: `str % int` in Python is string formatting, so a text elevation containing a `%` directive formats instead of raising. `MultipleOf` treats all text as raising.
- File output, the reload of the saved contour layer, symbology, the dialog that chooses ignored attributes (the ignored set is a parameter), and the altitude and highest-point computations of the contour script are not part of this model.
- DamRules.LabelBorders: when cancellation arrives during the vertex scan of a feature, that feature may be labelled "Correto" although it has a hit. The contract states only soundness for that one feature, as the source does not finish its scan.
- DamRules.ValidateBorders: the same weaker guarantee holds for the feature in flight at cancellation.
- LaneRules.ValidateLaneCounts: when classifying (the default, algorithms/Projeto4/solucao.py:41), the source passes the geometry returned by `pointOnSurface()` to `QgsGeometry.fromPointXY` (algorithms/Projeto4/solucao.py:95), which expects a point and raises TypeError on the first feature, and it then calls `addFeature` on the `(sink, id)` pair (algorithms/Projeto4/solucao.py:98). The model writes the evidently intended surface point of every feature instead.
- LaneRules.CheckAllLaneCounts: writes the surface points where the source raises, for the reason given for `LaneRules.ValidateLaneCounts`.
- LaneRules.CheckOneLane: writes one surface point where the source raises, for the same reason.
- LaneRules.SurfaceRows: is the evidently intended surface-point output, which the source never produces when classifying, for the same reason.
- DamRules.CreatePointsFromDams: the source calls `addFeature` on the `(sink, id)` pair (algorithms/Projeto4/solucao_complementar.py:172), which raises AttributeError on the first flagged dam. The model writes the evidently intended point to the sink.
- PointRules.ValidatePoints: the valid ids are visited in Python set order, so only the set of records and their number are stated, not their order.
