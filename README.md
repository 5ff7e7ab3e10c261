# Pre-approval lookup agent ("Jose") — a Dafny model

The program configures a conversational agent that helps a bank customer find
their pre-approved loan amount. This project models the parts of `main.py` that
contain logic:

- **Identifier normalisation** (`normalizar_id`) — module `Identifier`,
  `identifier.dfy`. The identifier defaults to `""` when it is missing. It is
  `strip()`ped, and then every whitespace character and every `.`, `-`, `_` and `/`
  is removed. Whitespace is the set of characters for which Python's
  `str.isspace()` holds, which is also the set that `\s` matches in a `str`
  pattern. It is written out character by character.
- **Account store and lookup tool** (`CLIENTES`, `get_or_create_conta`,
  `obter_pre_aprovado`) — module `Accounts`, `accounts.dfy`.
  - The process-wide dictionary is the class `AccountStore`. Its `map` field
    is reassigned by methods with `modifies` clauses.
  - Beside the class, the functions `GetOrCreate` and `Lookup` state the same
    operations on a map value. The methods are proved equal to them, and the
    lemmas about stability and repeatability are stated on them.
  - The random number generator is an argument. A `Draw` holds the outcome of
    `random() < 0.50` and the index that `randrange(1000, 20001, 500)` picks
    among its `ceil((20001 - 1000) / 500) = 39` values. A draw is used only
    when an account is created.
- **Loan conditions tool** (`obter_condicoes_emprestimo`) — module
  `Conditions`, `conditions.dfy`. It is a constant record. The rate 1.79 is
  kept as 179 hundredths.
- **The "Consultar Pré-Aprovado" journey** (`consultar_pre_aprovado_journey`) —
  module `Journey`, `journey.dfy`.
  - States form a datatype, and `Step(state, event)` is a pure transition
    function.
  - Events are the inputs the dialogue runtime decides at run time: an
    unconditional `Continue`, the lookup tool's answer, and the customer's
    yes or no to "see the conditions?".
  - `Graph` lists the declared transitions, one per `transition_to` call, and
    `Step` is proved to be exactly that graph.

Amounts are `int`: every value the source stores (`0.0` or `float` of an integer
from `randrange`) is an integer.

## Model

| member | source | states |
|---|---|---|
| `Identifier.TrimStart` | main.py:21 | the leading-whitespace strip yields the suffix of the input that starts at its first non-whitespace character; everything dropped is whitespace |
| `Identifier.TrimEnd` | main.py:21 | the trailing-whitespace strip yields the prefix of the input that ends at its last non-whitespace character; everything dropped is whitespace |
| `Identifier.WhitespaceClass` | main.py:21 | space, tab, newline, carriage return, vertical tab and form feed are whitespace; ASCII letters, ASCII digits and `.-_/` are not |
| `Identifier.SeparatorClass` | main.py:21 | a character is removed by the `[\s\.\-_/]` substitution exactly when it is whitespace or one of `.-_/`; ASCII letters and ASCII digits are never removed |
| `Identifier.Strip` | main.py:21 | `strip()` yields the contiguous slice of the input that starts right after its leading whitespace; every character before and after that slice is whitespace, and the slice has no whitespace at either end |
| `Identifier.TrimmedSlice` | main.py:21 | when the dropped start of the input is whitespace, trimming the end of what is left yields one slice of the original input with only whitespace before and after it |
| `Identifier.RemoveSeparators` | main.py:21 | the substitution of `[\s\.\-_/]` by `""` never lengthens the string and leaves no separator in it |
| `Identifier.NormalizeId` | main.py:20-21 | the normalised identifier contains no whitespace, `.`, `-`, `_` or `/` |
| `Identifier.RemoveSeparatorsAppend` | main.py:21 | removing separators distributes over concatenation |
| `Identifier.RemoveSeparatorsFixesClean` | main.py:21 | the substitution leaves a string unchanged exactly when it holds no separator |
| `Identifier.RemoveSeparatorsEmpty` | main.py:21 | the substitution yields `""` exactly when every character is a separator |
| `Identifier.RemoveSeparatorsIsSubsequence` | main.py:21 | the result is the subsequence of the input at strictly increasing positions, and a position is kept exactly when its character is not a separator; every other character survives, in order |
| `Identifier.RemoveSeparatorsTrimStart` | main.py:21 | dropping leading whitespace does not change the result of the substitution |
| `Identifier.RemoveSeparatorsTrimEnd` | main.py:21 | dropping trailing whitespace does not change the result of the substitution |
| `Identifier.NormalizeIdIgnoresStrip` | main.py:21 | the `strip()` is redundant: the normal form of a present identifier is the identifier with its separators removed |
| `Identifier.NormalizeIdMissing` | main.py:21 | a missing identifier (`None or ""`) normalises to `""` |
| `Identifier.NormalizeIdIdempotent` | main.py:20-21 | normalising a normal form changes nothing |
| `Identifier.NormalizeIdIgnoresInsertedSeparators` | main.py:21 | inserting separators or whitespace anywhere in an identifier does not change its normal form |
| `Identifier.NormalizeIdEmpty` | main.py:20-21 | the normal form is empty exactly when the identifier is missing or made only of separators |
| `Accounts.DrawnAmount` | main.py:27-30 | the amount a new account gets is allowed, and it is 0 exactly when `random()` fell below one half |
| `Accounts.RangeCount` | main.py:30 | `randrange(1000, 20001, 500)` chooses among n values where `1000 + 500(n-1) < 20001 <= 1000 + 500n` |
| `Accounts.DrawnAmountsAreAllowed` | main.py:27-30 | the amounts a new account can get are exactly 0 and the multiples of 500 from 1000 to 20000 |
| `Accounts.GetOrCreate` | main.py:24-33 | on a present key returns the stored account and leaves the store unchanged; on an absent key stores a new account with an allowed amount under that key only; the returned account is the one stored |
| `Accounts.Lookup` | main.py:69-86 | answers INVALID, with the fixed reason and the store untouched, exactly when the normal form has fewer than 6 characters; otherwise OK with the normal form as `id_cliente` and the amount stored under it; a known customer gets the stored amount with the store unchanged; every existing entry is kept as it was, and only the normal form may be added |
| `Accounts.GetOrCreateKeepsInvariant` | main.py:26-32 | if every stored amount is allowed before a get-or-create, the same holds after it, and the returned amount is non-negative |
| `Accounts.GetOrCreateFrame` | main.py:32 | get-or-create adds at most the looked-up key and leaves every other entry as it was |
| `Accounts.GetOrCreateStable` | main.py:25-33 | after the first access a second access returns the same account and leaves the store unchanged, whatever its random draw |
| `Accounts.LookupIgnoresSeparators` | main.py:71 | lookups of identifiers that differ only by inserted separators give the same answer and the same store |
| `Accounts.LookupRepeatable` | main.py:71-85 | after a lookup, a lookup of any identifier with the same normal form gives the same answer and changes nothing, whatever its random draw |
| `Accounts.LookupStableAcrossOthers` | main.py:71-85 | looking up a customer, then any other identifier, then the first customer again gives the first customer the same answer |
| `Accounts.LookupKeepsInvariant` | main.py:73-85 | a lookup keeps every stored amount allowed, and an OK answer carries an allowed, hence non-negative, amount |
| `Accounts.AccountStore.constructor` | main.py:15 | the dictionary starts empty |
| `Accounts.AccountStore.GetOrCreateConta` | main.py:24-33 | updates the dictionary in place as `GetOrCreate` says: unchanged on a hit, one new entry with an allowed amount on a miss; keeps every stored amount allowed |
| `Accounts.AccountStore.ObterPreAprovado` | main.py:69-86 | answers INVALID exactly when the normal form is shorter than 6 characters and then leaves the dictionary alone; otherwise answers OK with the normal form and the allowed amount now stored under it; every entry already in the dictionary stays as it was, and only the normal form may be added |
| `Conditions.ObterCondicoesEmprestimo` | main.py:89-96 | the conditions are always interest 1.79, at most 10 instalments and due day 15 |
| `Journey.Graph` | main.py:107-148 | the twelve declared transitions: none leaves END, none enters the initial state, and exactly three leave the lookup state, to the INVALID, zero and positive branches |
| `Journey.Step` | main.py:107-148 | every step the journey accepts follows one of the transitions it declares |
| `Journey.GraphEdgesAreSteps` | main.py:107-148 | a pair of states is a declared transition exactly when some event makes the journey take it |
| `Journey.OnlyEndIsFinal` | main.py:124-148 | END accepts no event, and every other state accepts some event |
| `Journey.BranchesPartition` | main.py:113-130 | the three guards after the lookup exclude each other and together cover every answer whose amount is not negative |
| `Journey.AnswerAccepted` | main.py:113-130 | a lookup answer that is INVALID or has a non-negative amount is accepted by the lookup state, and goes to the retry branch exactly when it is INVALID |
| `Journey.ToolAnswersTakeOneBranch` | main.py:110-130 | every answer the lookup tool can give is accepted by the lookup state, and it goes to the retry branch exactly when the normal form is too short |
| `Journey.BranchesReachableFromStart` | main.py:107-130 | from the initial state, asking for the identifier and calling the lookup tool reaches the INVALID, zero or positive branch that the tool's answer selects |
| `Journey.InvalidRetries` | main.py:113-117 | after an INVALID answer the journey goes back to asking for the identifier |
| `Journey.RetryCycle` | main.py:107-117 | asking, an INVALID answer and the retry form a cycle back to asking, with no limit on attempts |
| `Journey.ZeroEnds` | main.py:120-124 | OK with amount 0 leads to END |
| `Journey.PositiveEnds` | main.py:127-148 | OK with a positive amount leads to END both through the conditions and through the decline |
| `Journey.ConditionsOnlyOnRequest` | main.py:133-136 | the conditions tool runs only when the customer, shown a positive amount, asks for the conditions |
| `Journey.StepLowersRank` | main.py:107-148 | every transition except the INVALID branch moves strictly closer to END |
| `Journey.RunWithoutRetryIsBounded` | main.py:107-148 | without an INVALID answer, a run takes at most as many steps as the rank of its start, so at most six from the initial state |
| `Journey.EndNeedsOkLookup` | main.py:107-130 | a run that starts before a successful lookup reaches END only if the lookup answered OK at some point |

## Left out

- The dialogue runtime: the server, the agent, the glossary terms, the guidelines and the tool
  and result wrappers (main.py:36-66, main.py:153-175). These are configuration
  handed to an external library, and the tool results are plain datatypes here.
- `async`/`await`: nothing runs concurrently, so every operation is sequential. Concurrent
  first lookups of one identifier are not modelled.
- The distribution of the random draws: a draw is an argument, constrained only to the
  values the source can produce.
- How the runtime decides which guarded transition fires: that is natural-language
  evaluation by a language model. The decision reaches the model as an event, and
  `Step` takes the transition whose guard holds for that event.
- The prompt wording of the chat states.
- Floating point: amounts are integers, and the interest rate is 179 hundredths.
