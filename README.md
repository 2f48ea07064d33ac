# Contest rating processor, modelled in Dafny

This project models `RatingProcessor` from `ratings/processor.py`. That class runs one programming contest through the rating system. It takes:

- the lines of a rank file: one handle per line, in finishing order;
- an in-memory player store: a map from srn (the player's registration number) to the player's record;
- the site the contest was held on.

It updates the store in place in five stages:

1. **Read the rank file** into a handle→rank map. Ranks are 1, 2, 3, … in line order, and a later duplicate line overwrites the earlier rank. A duplicate-handle condition is logged.
2. **Join** the rank map with the store's handles for the site, giving srn→rank. Handles that no player registers are logged, and looking one of them up fails.
3. **Take the field snapshot** before any update: the participant count `N`, the competition factor `Cf`, and the participants' (rating, volatility) pairs.
4. **Update every participant** against that one snapshot, using the rating algorithm:
   - new rating and volatility;
   - one more contest played;
   - best rating raised to the new rating when it is higher;
   - inactivity countdown reset to 5.
5. **Decay non-participants**: their countdown drops by one. When it reaches 0 for a player who has played before, the rating is multiplied by 0.9 and the countdown restarts at 5.

Modules:

- `Records` (records.dfy): the player record, the snapshot, and the rating algorithm's two entry points as the datatype `Elo`.
- `RankFile` (rank_file.dfy): the rank map as a function of the lines, and its properties.
- `HandleJoin` (handle_join.dfy): what a correct join is, and when the join is determined.
- `FieldSnapshot` (field_snapshot.dfy): the field as a multiset of pairs, and the zip and unzip of the two lists.
- `RatingUpdate` (rating_update.dfy): one participant's update, the participant pass, and its independence from order.
- `Decay` (decay.dfy): the countdown step, the decay pass, and the effect of many skipped contests.
- `Contest` (contest.dfy): invariants of a whole contest.
- `Processor` (processor.dfy): the class `RatingProcessor`.
  - Its fields are the store and the snapshot.
  - Its constructor runs the pipeline.
  - Each stage is a method with the source's loops. Every loop over a dictionary takes its keys in an arbitrary order, so each method is proved for every iteration order.

## Model

| member | source | states |
|---|---|---|
| Processor.RatingProcessor.constructor | ratings/processor.py:9-15 | The constructor reads the rank file with the corrected duplicate check (see Findings), not the one the source runs, so the reported duplicate condition holds exactly when a line repeats. The participants are a join of the rank map with the store. `N` is the number of participants, and that equals the number of distinct handles. The snapshot list holds exactly the participants' pre-update pairs, and `Cf` is `elo.Cf` of it. The final store is the decay pass applied after the participant pass, the participant pass using that snapshot. |
| RankFile.Ranks | ratings/processor.py:22-25 | Defines the handle→rank map of a list of lines, line by line, a later line overwriting an earlier rank. Every rank lies in 1..number of lines, and the last line has the largest rank. |
| Processor.RatingProcessor.RankLines | ratings/processor.py:19-25 | The loop builds exactly `Ranks(lines)`, and its counter ends at the number of lines plus one. |
| Processor.RatingProcessor.ReadContestRanksAsWritten | ratings/processor.py:18-31 | As written, the reader returns `Ranks(lines)` and reports the duplicate condition for every input, including one with no repeated line. |
| Processor.RatingProcessor.ReadContestRanks | ratings/processor.py:18-31 | With the size check corrected, the reader returns `Ranks(lines)` and reports the duplicate condition if and only if some line repeats. |
| RankFile.RanksAreLastOccurrences | ratings/processor.py:22-25 | Every rank lies in 1..number of lines. Every rank is the 1-based index of the last occurrence of its handle. Every line is ranked no earlier than its own position. |
| RankFile.RanksKeys | ratings/processor.py:23-24 | The keys of the rank map are exactly the distinct lines. |
| RankFile.RankedIffListed | ratings/processor.py:23-24 | A handle is ranked if and only if it is one of the lines. |
| RankFile.RanksSize | ratings/processor.py:22-27 | The rank map has at most one entry per line. It has exactly one per line if and only if no line repeats. |
| RankFile.RanksWithin | ratings/processor.py:23-24 | If every line belongs to a set of handles, so does every ranked handle. |
| Processor.RatingProcessor.CreateSrnRankDict | ratings/processor.py:33-53 | The unassigned handles are exactly the ranked handles no stored player registers for the site. The join fails with a missing handle if and only if that set is non-empty, and the missing handle is one of them. A successful result is a join: sound, complete, and the same size as the rank map. |
| Processor.RatingProcessor.InvertHandles | ratings/processor.py:35-39 | The handle→srn map has exactly the handles registered for the site as its keys. Each entry's player is stored and registers that handle, so only players with the site key contribute. |
| Processor.RatingProcessor.JoinRanks | ratings/processor.py:46-53 | The lookup fails if and only if some ranked handle is missing from handle→srn, and it reports such a handle. Otherwise the result is a join of the rank map with the store. |
| HandleJoin.RankedPlayerJoins | ratings/processor.py:48-51 | With unique site handles, every stored player whose site handle is ranked is in a complete join. |
| HandleJoin.JoinParticipants | ratings/processor.py:48-51 | With unique site handles, a sound and complete join has exactly the players with a ranked site handle as its keys. |
| HandleJoin.JoinDetermined | ratings/processor.py:33-53 | With unique site handles, the join is determined: each player with a ranked site handle takes part with exactly that handle's rank, and no one else does. |
| Processor.RatingProcessor.GetContestDetails | ratings/processor.py:55-69 | The count is the number of participants, and the list has that length. As a multiset, the list equals the participants' (rating, volatility) pairs. The factor is `elo.Cf` of the list's ratings, volatilities and count. |
| FieldSnapshot.Zip | ratings/processor.py:67 | Defines the list of pairs that zips the rating list with the volatility list; `FieldSnapshot.UnzipZip` and `FieldSnapshot.ZipSnoc` state its properties. |
| FieldSnapshot.FieldBagRemove | ratings/processor.py:59-63 | Any participant may be taken first: the bag of pairs does not depend on the iteration order. |
| FieldSnapshot.FieldStep | ratings/processor.py:59-63 | Appending one participant's pair to the two lists moves it from the pending bag to the collected one, and the total is unchanged. |
| FieldSnapshot.ZipSnoc | ratings/processor.py:62-67 | Appending to both lists appends the pair to their zip. |
| FieldSnapshot.UnzipZip | ratings/processor.py:66-67 | The ratings and the volatilities in the zipped list are the two lists that were zipped. |
| Processor.RatingProcessor.ProcessPlayer | ratings/processor.py:71-92 | The updated record is the participant update of the player for its rank, against the snapshot in the fields. |
| RatingUpdate.ParticipantUpdate | ratings/processor.py:78-90 | Rating and volatility are the rating algorithm's outputs for the old record, the rank and the snapshot. Best is at least the new rating and at least the old best, and equals one of them. The play count goes up by one. The countdown is 5. The site handles are unchanged. |
| Processor.RatingProcessor.ProcessCompetition | ratings/processor.py:94-101 | Only the store changes. The new store is the participant pass of the old one, against the snapshot held in the fields. |
| RatingUpdate.AfterCompetition | ratings/processor.py:94-99 | Defines the store after the participant pass: each participant replaced by its update against one snapshot, everyone else kept. `RatingUpdate.CompetitionFrame` states its properties. |
| RatingUpdate.CompetitionFrame | ratings/processor.py:94-99 | The participant pass keeps the key set. It gives each participant its rank's update, computed from its own old record. It leaves every other record as it was. |
| RatingUpdate.ApplyInOrder | ratings/processor.py:95-99 | Defines the participant loop run in one given order, each step reading the record the earlier steps left. `RatingUpdate.ApplyInOrderUpdatesEachOnce` relates it to the participant pass. |
| RatingUpdate.ApplyInOrderUpdatesEachOnce | ratings/processor.py:95-99 | Running the loop over distinct participants in a given order updates each of them exactly once, from the record it had before the loop. |
| RatingUpdate.OrderIndependent | ratings/processor.py:83-99 | Any two enumerations of the participants give the same final store, the one the participant pass describes. |
| Processor.RatingProcessor.DecayRatings | ratings/processor.py:103-123 | Only the store changes. The new store is the decay pass of the old one. |
| Decay.Decayed | ratings/processor.py:112-121 | Defines one countdown step of a non-participant's record; `Decay.DecayTransition` states it field by field. |
| Decay.AfterDecay | ratings/processor.py:110-121 | Defines the store after the decay pass: every non-participant stepped once, participants kept. `Decay.DecayFrame` states its properties. |
| Decay.DecayTransition | ratings/processor.py:112-121 | One countdown step: the countdown drops by one unless the decay fires. The decay fires for a countdown of 1 and a play count above 0. It multiplies the rating by 0.9 and sets the countdown to 5. No other field changes. |
| Decay.DecayFrame | ratings/processor.py:110-121 | The decay pass keeps the key set. It leaves participants untouched, steps every non-participant once, and changes no play count. |
| Decay.CountdownStaysInRange | ratings/processor.py:113-121 | A player who has played and has a countdown in 1..5 still has one in 1..5 after a skip. |
| Decay.SkipNeverPlayed | ratings/processor.py:113-121 | A player who has never played keeps its rating over any number k of skipped contests, and its countdown drops by exactly k with no lower bound. |
| Decay.SkipPlayed | ratings/processor.py:113-121 | A player who has played, with countdown L in 1..5, skips k contests. Its rating is multiplied by 0.9 once for each firing, which is (k + 5 − L) / 5 times. Its countdown is 5 − (k + 5 − L) mod 5, so it stays in 1..5. |
| Contest.ContestKeepsCountdowns | ratings/processor.py:14-15 | A contest preserves the invariant that play counts are non-negative and that a player who has played has a countdown in 1..5. |
| Contest.ParticipantsRestart | ratings/processor.py:14-15 | After a contest, every participant has played at least once and has a full countdown of 5. |

## Left out

- `read_argv` and the `__main__` block (ratings/processor.py:126-152): argument parsing, file probing and database persistence are I/O. The database module is not part of this model.
- File reading in `read_contest_ranks`: the rank file is given as its sequence of lines, taken verbatim. Lines are not stripped, so a handle includes its trailing newline, as in the source.
- Logging: the two logged conditions are modelled as values.
  - The duplicate condition is the `duplicateReported` output, kept as a ghost field of the class.
  - The unassigned handles are the `unassigned` output of `CreateSrnRankDict`.
- The rating algorithm (`elo.Cf`, `elo.process`): its module is not part of this model. The two functions are arbitrary total functions passed in as the `Elo` parameter, so every property holds whatever they compute.
- Floating point: ratings, volatilities and best ratings are `real`, so `max` and the multiplication by 0.9 are exact.
- Dictionary iteration order: every loop picks its next key arbitrarily, and the methods are proved for all orders.
  - The snapshot list is therefore related to the participants as a multiset, not as a sequence.
  - When two players register the same handle for the site, the source keeps the later-iterated one. The model only states that some registering player is kept. The join is pinned down completely when site handles are unique (`HandleJoin.JoinDetermined`).
- Record layout: a player record in the source is one dictionary that holds both the site handles and the rating fields. The model keeps the handles in their own map inside the record. A site named like a rating field is therefore not modelled.
- Aliasing: the source updates the caller's dictionary (and each player's inner dictionary) in place. The model's class holds the store as a value, and the caller reads the result back through the `players` field.
- Processor.RatingProcessor.constructor: requires every rank-file line to be a handle registered for the site. Where that fails, the source raises a KeyError from the join. That error path is modelled by `Processor.RatingProcessor.CreateSrnRankDict` and `Processor.RatingProcessor.JoinRanks`, not by the constructor.
- Processor.RatingProcessor.constructor: runs the corrected duplicate check of the Findings row (`Processor.RatingProcessor.ReadContestRanks`), so its `duplicateReported` holds only when a line repeats. The source's constructor runs the check as written, which reports for every rank file; that behaviour is stated by `Processor.RatingProcessor.ReadContestRanksAsWritten`.
- Interpreter options: the duplicate check is a bare `assert` inside `try` (ratings/processor.py:26-29). When Python runs with `-O`, asserts are removed and the duplicate error is never logged. The model follows the default interpreter, which keeps them.

## Findings

| source | as written | input that shows it | evidently intended | confidence | as-written member | corrected member |
|---|---|---|---|---|---|---|
| ratings/processor.py:27 | The size of the handle→rank map is compared with `rank`. After the loop, `rank` is the number of lines plus one, and the map never has more entries than there are lines, so the duplicate-handles error is logged for every rank file (under the default interpreter; with `python -O` the assert is removed and nothing is logged). | The rank file with the single line `"a\n"`: the map has one entry and `rank` is 2. | Compare the map's size with the number of lines (`rank - 1`), so the error is logged exactly when a handle repeats. | not executed | Processor.RatingProcessor.ReadContestRanksAsWritten | Processor.RatingProcessor.ReadContestRanks |
