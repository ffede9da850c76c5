# C# 14 feature tour and .NET 10 benchmarks, modelled in Dafny

This project models two programs from a .NET showcase repository.

- **The C# 14 feature tour** (`src/CSharp14Features/CSharp14Features/Program.cs`):
  - `PersonWithField`, whose `field`-backed `FirstName` and `LastName` setters reject blank names with `ArgumentException`.
  - `Customer` and the null-conditional assignment `customer?.Orders?.Add(...)`.
  - The extension members `ListExtensions.Sum`, `StringExtensions.WordCount` and `StringExtensions.ReverseString`.
  - The span demo: slicing with `[..5]` and `[5..]`, and `SpanToString`.
- **The `PerformanceBenchmarks` class of the .NET 10 performance demo** (`src/PerformanceComparison/PerformanceDemo.Net10/Program.cs`):
  - `Setup` and the benchmarks that compute a value: string concatenation, list add-and-sum, dictionary operations, the LINQ filter-map-sum, array fill/sort/binary-search and span fill/index-of.

The model follows the C# code:

- **`int` arithmetic.** C# `int` is modelled as `Int32Arith.Int32`. The unchecked `+` and `*` wrap modulo 2^32 (`Wrap`, `Add`). `Enumerable.Sum` over `int` adds in a checked context, so `Linq.CheckedSum` returns `OverflowException` as an error value.
- **`null` and exceptions.** `null` strings are `Option<string>`. Thrown exceptions are returned values: `Option<ArgumentException>` from a setter, `Result` from construction and slicing.
- **Objects that change in place.** `PersonWithField`, `Customer` with its `OrderList`, and `PerformanceBenchmarks` are classes. The collections `PerformanceBenchmarks` keeps in its fields (`_list`, `_dict` and `_numbers`) are sequence and map values that its methods reassign, and so are the lists and dictionaries a method builds locally and never shares: the `List<int>` of `ListAddAndSum`, the `Dictionary` of `DictionaryOperations` and the `List<string>` of `SpanToString`. Arrays the source mutates stay arrays: the `char[]` reversed by `Array.Reverse`, the sorted `int[]`, and the `byte` buffer of the span benchmark.
- **`string.IsNullOrWhiteSpace`.** It uses `Char.IsWhiteSpace`, modelled by its full code-point set (`Text.IsWhiteSpace`). `WordCount` splits only on `' '`, `'\t'` and `'\n'`.
- **Two notions of blank.** A string such as `"\r"` is blank to the first test but is one word to the split. The model keeps both definitions and states the consequence in `ExtensionMembers.WhiteSpaceWiderThanSeparators`.
- **Library calls.** `Array.Sort`, `Array.BinarySearch`, `Span<byte>.Fill`, `Span<byte>.IndexOf`, `Where`, `Select` and `string.Join` are written out with the behaviour their documentation gives. `BinarySearch` follows the runtime's iterative search and returns the bitwise complement of the insertion point on a miss.

## Model

| member | source | states |
|---|---|---|
| FieldKeyword.CheckName | src/CSharp14Features/CSharp14Features/Program.cs:87-89 | a value is accepted exactly when it is non-null and holds a character that is not white space; an accepted value is returned unchanged, a rejected one yields the setter's `ArgumentException` |
| FieldKeyword.PersonWithField.SetFirstName | src/CSharp14Features/CSharp14Features/Program.cs:84-90 | throws `ArgumentException("First name cannot be empty", "FirstName")` exactly for a null, empty or white-space value and then keeps the old name; otherwise stores the value exactly; the object stays valid |
| FieldKeyword.PersonWithField.SetLastName | src/CSharp14Features/CSharp14Features/Program.cs:92-98 | the same for `LastName` with its own message and parameter name |
| FieldKeyword.PersonWithField.Create | src/CSharp14Features/CSharp14Features/Program.cs:77-81 | construction succeeds exactly when both names are non-blank, and then the getters return exactly the arguments; otherwise the first setter's error wins, `FirstName` before `LastName` |
| FieldKeyword.FieldKeywordRun | src/CSharp14Features/CSharp14Features/Program.cs:54-71 | the demo prints "John Doe", catches the first-name error for `""` while the name stays "John", then shows "Jane Doe" |
| NullConditional.OrderList.Add | src/CSharp14Features/CSharp14Features/Program.cs:114 | `List<string>.Add` appends its argument at the end and changes nothing else |
| NullConditional.OrderList.constructor | src/CSharp14Features/CSharp14Features/Program.cs:109 | a list built from a collection expression such as ["Order1", "Order2"] holds exactly those items |
| NullConditional.Customer.constructor | src/CSharp14Features/CSharp14Features/Program.cs:125-129 | a new customer has name "" and a fresh empty order list |
| NullConditional.OrdersOf | src/CSharp14Features/CSharp14Features/Program.cs:114 | `customer?.Orders` is null when the customer is null and the customer's list otherwise |
| NullConditional.AddOrderIfPresent | src/CSharp14Features/CSharp14Features/Program.cs:114 | `customer?.Orders?.Add(x)` appends exactly one element at the end when both are non-null, does nothing otherwise, and never replaces the list |
| NullConditional.OrdersOrEmpty | src/CSharp14Features/CSharp14Features/Program.cs:116 | `customer?.Orders ?? []` is the customer's orders, or empty when either link is null |
| NullConditional.NullConditionalRun | src/CSharp14Features/CSharp14Features/Program.cs:107-122 | the orders go from Order1, Order2 to Order1, Order2, Order3; the null customer yields no orders and no exception |
| Int32Arith.Wrap | src/CSharp14Features/CSharp14Features/Program.cs:160 | the value an unchecked `int` operation yields: the exact result brought into `int` range by adding or subtracting 2^32, and the exact result itself when it fits |
| ExtensionMembers.Sum | src/CSharp14Features/CSharp14Features/Program.cs:155-163 | the `foreach` accumulation equals the exact sum of the list wrapped to 32 bits, hence 0 for an empty list and the exact sum whenever it fits in an `int` |
| ExtensionMembers.TakeWord | src/CSharp14Features/CSharp14Features/Program.cs:177 | the first split field is the longest separator-free prefix and is ended by a separator or the end of the text |
| Text.IsWhiteSpace | src/CSharp14Features/CSharp14Features/Program.cs:176 | `Char.IsWhiteSpace`: U+0009 to U+000D, U+0020, U+0085, U+00A0, U+1680, U+2000 to U+200A, U+2028, U+2029, U+202F, U+205F and U+3000 |
| Text.IsNullOrWhiteSpace | src/CSharp14Features/CSharp14Features/Program.cs:176 | `string.IsNullOrWhiteSpace`: null, or every character white space (so also the empty string) |
| ExtensionMembers.SplitFields | src/CSharp14Features/CSharp14Features/Program.cs:177 | `Split` without options: the pieces between separators, empty ones included, never an empty result |
| ExtensionMembers.RemoveEmptyEntries | src/CSharp14Features/CSharp14Features/Program.cs:177 | `StringSplitOptions.RemoveEmptyEntries`: drops the empty pieces, keeping the rest in order |
| ExtensionMembers.Words | src/CSharp14Features/CSharp14Features/Program.cs:177 | the split with empty entries removed, on ' ', '\t' and '\n' only |
| ExtensionMembers.SplitFieldsCount | src/CSharp14Features/CSharp14Features/Program.cs:177 | `Split` without options yields one more field than there are separators |
| ExtensionMembers.SplitFieldsHaveNoSeparator | src/CSharp14Features/CSharp14Features/Program.cs:177 | no split field contains a separator |
| ExtensionMembers.RemoveEmptyEntriesKeeps | src/CSharp14Features/CSharp14Features/Program.cs:177 | `RemoveEmptyEntries` keeps exactly the non-empty fields in their order: it equals `Where` with the non-empty test, every entry is a non-empty input field, and every non-empty input field is kept |
| ExtensionMembers.WordsAreWords | src/CSharp14Features/CSharp14Features/Program.cs:177 | every word is non-empty and separator-free |
| ExtensionMembers.WordCount | src/CSharp14Features/CSharp14Features/Program.cs:174-178 | null, empty or white-space-only text counts 0 words |
| ExtensionMembers.WordsAroundSeparator | src/CSharp14Features/CSharp14Features/Program.cs:177 | splitting at a separator splits the word list: the words of a + [c] + b are those of a followed by those of b |
| ExtensionMembers.SeparatorsAreIgnored | src/CSharp14Features/CSharp14Features/Program.cs:177 | leading, trailing and doubled separators add no words |
| ExtensionMembers.WordsCountRuns | src/CSharp14Features/CSharp14Features/Program.cs:177 | the number of words equals the number of maximal runs of non-separator characters |
| ExtensionMembers.WordCountIsRunCount | src/CSharp14Features/CSharp14Features/Program.cs:174-178 | `WordCount` is 0 for null, at most the text length, and the run count for any text that is not blank |
| ExtensionMembers.WordCountIgnoresSeparators | src/CSharp14Features/CSharp14Features/Program.cs:174-178 | `WordCount` is unaffected by a leading, trailing or doubled separator |
| ExtensionMembers.WhiteSpaceWiderThanSeparators | src/CSharp14Features/CSharp14Features/Program.cs:176-177 | "\r" counts 0 because it is white space although its split has one word, and "a\rb" counts one word |
| ExtensionMembers.ShortCircuitAgreesOnSeparators | src/CSharp14Features/CSharp14Features/Program.cs:176-177 | when the white-space characters of a text are exactly its separators, `WordCount` is the run count |
| ExtensionMembers.Reversed | src/CSharp14Features/CSharp14Features/Program.cs:183 | the reversal of a sequence, with the same length |
| ExtensionMembers.ReversedAt | src/CSharp14Features/CSharp14Features/Program.cs:183 | reversal puts element i at index n - 1 - i |
| ExtensionMembers.ReversedTwice | src/CSharp14Features/CSharp14Features/Program.cs:183 | reversing twice gives back the original |
| ExtensionMembers.ArrayReverse | src/CSharp14Features/CSharp14Features/Program.cs:183 | `Array.Reverse` leaves the array holding the reversal of its old contents |
| ExtensionMembers.ReverseString | src/CSharp14Features/CSharp14Features/Program.cs:180-185 | the result has the input's length and holds input character i at index n - 1 - i |
| ExtensionMembers.ReverseStringTwice | src/CSharp14Features/CSharp14Features/Program.cs:180-185 | applying `ReverseString` twice returns the original text |
| ExtensionMembers.GreetingWords | src/CSharp14Features/CSharp14Features/Program.cs:146-148 | "Hello, Mississauga!" has two words |
| ExtensionMembers.ExtensionMembersRun | src/CSharp14Features/CSharp14Features/Program.cs:137-150 | the demo's sum of 1..5 is 15, its word count is 2, and its reversal has the same length and starts with '!' and ends with 'H' |
| SpanSupport.SliceTo | src/CSharp14Features/CSharp14Features/Program.cs:218 | `span[..end]` succeeds exactly when 0 <= end <= length and holds the first `end` items; otherwise it yields `ArgumentOutOfRangeException` |
| SpanSupport.SliceFrom | src/CSharp14Features/CSharp14Features/Program.cs:219 | `span[start..]` succeeds exactly when 0 <= start <= length and holds the items from `start` on |
| SpanSupport.SliceHalves | src/CSharp14Features/CSharp14Features/Program.cs:218-219 | the two slices at the same index have lengths k and n - k and concatenate to the span |
| SpanSupport.SpanToString | src/CSharp14Features/CSharp14Features/Program.cs:230-238 | the loop's result is `string.Join(", ", ...)` of the items' texts in order, and "" for an empty span |
| SpanSupport.IntSpanSeparators | src/CSharp14Features/CSharp14Features/Program.cs:230-238 | for a non-empty span of integers the text holds exactly count - 1 commas, and its length is the items' total length plus two per separator |
| SpanSupport.SpanSupportRun | src/CSharp14Features/CSharp14Features/Program.cs:210-228 | the halves of 1..10 are 1..5 and 6..10; the three printed texts are exactly "1, 2, 3, 4, 5, 6, 7, 8, 9, 10", "1, 2, 3, 4, 5" and "6, 7, 8, 9, 10"; "Hello, World!" has length 13 and prefix "Hello" |
| Text.IntToString | src/PerformanceComparison/PerformanceDemo.Net10/Program.cs:69 | `int.ToString()`: a leading '-' exactly for a negative value, then decimal digits without leading zeros |
| Text.Join | src/CSharp14Features/CSharp14Features/Program.cs:237 | `string.Join`: "" for no items, the item itself for one, and the items in order with the separator between neighbours |
| Text.ParseIntToString | src/PerformanceComparison/PerformanceDemo.Net10/Program.cs:69 | `int.ToString()` can be read back, so distinct integers print differently |
| Text.JoinSeparatorCount | src/CSharp14Features/CSharp14Features/Program.cs:237 | `string.Join` puts exactly count - 1 separators between the items |
| Text.JoinLength | src/CSharp14Features/CSharp14Features/Program.cs:237 | the length of `string.Join` is the items' total length plus one separator per gap |
| Int32Arith.Add | src/CSharp14Features/CSharp14Features/Program.cs:160 | unchecked `+=` is the exact sum when in range and is shifted by 2^32 on overflow |
| Int32Arith.WrapAdd | src/CSharp14Features/CSharp14Features/Program.cs:157-161 | wrapping after each addition equals wrapping the exact total once |
| Linq.Where | src/PerformanceComparison/PerformanceDemo.Net10/Program.cs:109 | `Where` keeps only elements that satisfy the predicate and come from the source, never more than it had |
| Linq.WhereAppend | src/PerformanceComparison/PerformanceDemo.Net10/Program.cs:109 | `Where` over a concatenation filters each part in order |
| Linq.Select | src/PerformanceComparison/PerformanceDemo.Net10/Program.cs:109 | `Select`: the selector applied to each element, in order, with the source's length |
| Linq.CheckedSum | src/PerformanceComparison/PerformanceDemo.Net10/Program.cs:109 | `Sum` succeeds exactly when every running total fits in an `int`, and then returns the exact total; otherwise it yields `OverflowException` |
| Linq.CheckedSumNonNegative | src/PerformanceComparison/PerformanceDemo.Net10/Program.cs:109 | over non-negative numbers `Sum` succeeds exactly when the total is at most `int.MaxValue` |
| ArrayOps.SortedPermutation | src/PerformanceComparison/PerformanceDemo.Net10/Program.cs:120 | an ascending arrangement that is a permutation of its input |
| ArrayOps.ArraySort | src/PerformanceComparison/PerformanceDemo.Net10/Program.cs:120 | `Array.Sort` leaves the array sorted and a permutation of its old contents |
| ArrayOps.BinarySearch | src/PerformanceComparison/PerformanceDemo.Net10/Program.cs:121 | on a sorted array it returns an index holding the value, or, exactly when the value is absent, the complement of the insertion point with smaller items before it and larger ones after |
| ArrayOps.Fill | src/PerformanceComparison/PerformanceDemo.Net10/Program.cs:131 | every byte of the buffer equals the fill value |
| ArrayOps.IndexOf | src/PerformanceComparison/PerformanceDemo.Net10/Program.cs:132 | returns the first index holding the value, and -1 exactly when it is absent |
| Seqs.SortedUnique | src/PerformanceComparison/PerformanceDemo.Net10/Program.cs:120 | two sorted permutations of each other are equal, so the sort's result is determined |
| Seqs.Range | src/PerformanceComparison/PerformanceDemo.Net10/Program.cs:46 | `Enumerable.Range(start, count)`: exactly `count` items, the first is `start`, and each is one more than the one before |
| Seqs.RangeMembers | src/PerformanceComparison/PerformanceDemo.Net10/Program.cs:46 | a range holds an integer exactly when it lies in start to start + count - 1 |
| Seqs.SumRange | src/PerformanceComparison/PerformanceDemo.Net10/Program.cs:78-87 | 0 + 1 + ... + (n - 1) == n(n - 1)/2 |
| PerformanceDemo.ValueText | src/PerformanceComparison/PerformanceDemo.Net10/Program.cs:59 | the interpolated value $"Value_{i}" |
| PerformanceDemo.ValueMap | src/PerformanceComparison/PerformanceDemo.Net10/Program.cs:57-60 | the dictionary holding $"Value_{i}" under each key 0..n-1 and no other key |
| PerformanceDemo.FilterMapSum | src/PerformanceComparison/PerformanceDemo.Net10/Program.cs:109 | `Where(x => x % 2 == 0)`, then `Select(x => x * 2)` with unchecked doubling, then the checked `Sum` |
| PerformanceDemo.ValueTextInjective | src/PerformanceComparison/PerformanceDemo.Net10/Program.cs:59 | distinct keys get distinct $"Value_{i}" texts |
| PerformanceDemo.ValueMapGrows | src/PerformanceComparison/PerformanceDemo.Net10/Program.cs:57-60 | the dictionary starts empty and inserting key n extends the first n keys to n + 1 |
| PerformanceDemo.TryGetValue | src/PerformanceComparison/PerformanceDemo.Net10/Program.cs:101 | reports presence exactly when the key is in the dictionary, with its value |
| PerformanceDemo.ValueMapLookup | src/PerformanceComparison/PerformanceDemo.Net10/Program.cs:57-60 | the filled dictionary has a key exactly for 0..n-1, each with its own text, and no other key carries that text |
| PerformanceDemo.EvensOfRange | src/PerformanceComparison/PerformanceDemo.Net10/Program.cs:109 | filtering 1..2m for evens keeps exactly 2, 4, ..., 2m in order |
| PerformanceDemo.FilterMapSumOfRange | src/PerformanceComparison/PerformanceDemo.Net10/Program.cs:109 | over 1..2m the filter-map-sum returns 2m(m + 1) without overflow whenever that fits in an `int` |
| PerformanceDemo.SortedDescending | src/PerformanceComparison/PerformanceDemo.Net10/Program.cs:115-120 | sorting n, ..., 1 gives 1, ..., n |
| PerformanceDemo.PerformanceBenchmarks.Setup | src/PerformanceComparison/PerformanceDemo.Net10/Program.cs:42-61 | afterwards `_list` and `_array` hold i at index i for i < 1000000; `_dict` maps exactly the keys 0..99999 to $"Value_{i}"; `_numbers` is 1..10000 |
| PerformanceDemo.PerformanceBenchmarks.LinqOperations | src/PerformanceComparison/PerformanceDemo.Net10/Program.cs:107-110 | after `Setup` the result is 50 010 000 and `Sum` does not throw |
| PerformanceDemo.PerformanceBenchmarks.StringConcatenation | src/PerformanceComparison/PerformanceDemo.Net10/Program.cs:64-72 | only the last iteration's string survives: "Hello World!999" |
| PerformanceDemo.PerformanceBenchmarks.ListAddAndSum | src/PerformanceComparison/PerformanceDemo.Net10/Program.cs:75-88 | the list is 0..9999 in insertion order and its unchecked sum is 49 995 000 |
| PerformanceDemo.PerformanceBenchmarks.DictionaryOperations | src/PerformanceComparison/PerformanceDemo.Net10/Program.cs:91-104 | every inserted key is found again, so the result is true |
| PerformanceDemo.PerformanceBenchmarks.ArrayFillSortSearch | src/PerformanceComparison/PerformanceDemo.Net10/Program.cs:113-122 | the descending fill sorts to 1..10000, and the search for 5000 returns index 4999 |
| PerformanceDemo.PerformanceBenchmarks.SpanOperations | src/PerformanceComparison/PerformanceDemo.Net10/Program.cs:125-135 | after each fill with i % 256 (i < 100) no byte is 128, so the result is -1 |

## Left out

- `src/PerformanceComparison/PerformanceDemo.Net8/Program.cs` is not part of this model. It is a stopwatch timing harness whose computed values are discarded.
- `src/AgentFrameworkSamples/HelloAgent/Program.cs` is not part of this model. It walks through third-party AI client types and makes an asynchronous tool call.
- `TaskOperations`: left out because its point is the concurrency of `Task.Run` and `Task.WaitAll`.
- `RegexMatching` and the `_regex` field: left out because they run a foreign regular-expression engine.
- The benchmark runner, its attributes and `FastConfig`: left out because they are third-party configuration and timing.
- `ListExtensions.Average` and its `:F2` format: left out because they use floating-point division.
- `UnboundGenericNameofDemo`: left out because `nameof` is resolved at compile time and has no runtime behaviour.
- Console output, banners and string interpolation into the console: left out. The demos' scenarios appear as the `...Run` methods, which return the values the demos print.
- ExtensionMembers.ReverseString: works on a Dafny `string`, a sequence of Unicode scalar values, whereas C# `ToCharArray` and `Array.Reverse` work on UTF-16 code units. For text with a character outside the Basic Multilingual Plane the two differ: C# reverses "a😀" (length 3) into three code units with the surrogate pair's halves swapped, which is ill-formed UTF-16, while the model yields "😀a" (length 2). C# strings holding a lone surrogate cannot be represented at all. The same holds for the lengths and indices in `WordCount` and the span demo's text, which agree with C# only for text in the Basic Multilingual Plane.
- `ExtensionMembers.Sum` and `ExtensionMembers.ReverseString`: a null receiver, which throws `NullReferenceException` in C#, is not modelled; both take a non-null value.
- `Text.IntToString`: models `int.ToString()` under a culture with an ASCII `-` sign; culture-specific formatting is not modelled.
- `ArrayOps.ArraySort`: states the contract of `Array.Sort` (sorted and a permutation), and computes it by an insertion sort copied back in place. The runtime's introspective sort is not modelled.
- `PerformanceDemo.PerformanceBenchmarks.Setup`: the capacity arguments of `new List<int>(Iterations)` and `new Dictionary<int, string>(DictIterations)` only affect allocation and are not modelled. The loops fill local values that are then stored in the fields, rather than updating the fields element by element. Since `_list`, `_dict` and `_numbers` are values rather than objects, the model does not capture another reference seeing them change.
- `PerformanceDemo.PerformanceBenchmarks.constructor`: before `Setup` the C# fields hold `null!`; the model holds empty collections instead.
- `FieldKeyword.PersonWithField.Unset`: before the setters run, the backing fields hold null; the model holds "" instead, which no getter can observe after a successful `Create`.
- `SpanSupport.SpanToString`: takes the items' `ToString` as a parameter `show`. The `"null"` text for a null item is not modelled because the demo's spans hold `int` and `char`.
- `ExtensionMembers.ExtensionMembersRun`: states the length and the two end characters of the reversed greeting, not the whole reversed string.
- Timing, memory diagnostics and the `stackalloc` allocation of the span benchmark are not modelled.
