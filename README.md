# python-base service scaffold: registry, settings and terminal colours in Dafny

This project models the three pieces of logic in the `python-base` service scaffold:

- **The dependency registry** (`service/shared/registry.py`). It is a process-wide table from resource names to values, used as a service locator. Registration is first-writer-wins. Removing an absent name does nothing. Lookup of an unknown name gives `None`. The class also keeps a singleton slot and an `_initialized` flag.
- **Service settings** (`service/config/settings.py`). The log-level validator accepts only the five named `logging` levels. The four fields have defaults.
- **ANSI colouring** (`service/shared/terminal_colors.py`). These are the `ColorCode` constants, which are ECMA-48 SGR (Select Graphic Rendition, section 8.3.117) control sequences, and `coloring`, which wraps a text in a code and SGR 0.

Modules, one per source file:

- `Vocabulary` (`vocabulary.dfy`) covers `ResourceName`. The `StrEnum` `auto()` value is the member name in lower case.
- `SharedRegistry` (`registry.dfy`) holds the `Registry` class. A Dafny `Registry` object stands for the Python class object. Every piece of the source's state is a class attribute, so the object's fields are those attributes:
  - `entries`: the dict;
  - `order`: the dict's key order;
  - `hasInstance`: `_instance is not None`;
  - `initialized`: `_initialized`.
  The unnamed constructor is the state the class body sets up. `Instantiate` is `Registry()`, that is `__new__`. `Load` is importing the module: the class body, then `REGISTRY = Registry()`. `Valid()` is the invariant every method keeps: the key order lists each key exactly once, and `_initialized` implies an instance exists. No method ever sets `initialized` back to false.
- `Settings` (`settings.dfy`) covers `ServiceSettings`: the validator, the defaults, and construction from supplied fields.
- `Utf8` (`utf8.dfy`) models Python text as code points, which may include lone surrogates. It holds the strict UTF-8 encoder and decoder that `coloring` calls, with their round-trip lemma.
- `TerminalColors` (`terminal_colors.dfy`) holds the constants and `coloring`.
- `Wrappers` (`wrappers.dfy`) defines `Option`, used for `None`, and `Result`, used for raised exceptions.

Three behaviours of the source worth noting:

- The validator checks integers, 10/20/30/40/50, not level names.
- `list_resources` returns a list in insertion order, not a set.
- `get` creates the singleton instance but does not set `_initialized`. So if `get` ran before the first `Registry()`, `is_initialized` would stay false for good (`GetBeforeConstructionScenario`). In the program this cannot happen, because the module itself runs `REGISTRY = Registry()` on import (`Load`).

Inputs that come from outside are parameters:

- `MakeSettings` takes the four configuration values already parsed, each `None` when the environment and the `.env` file do not supply it.
- `Inject` takes the registry object explicitly.

## Model

| member | source | states |
|---|---|---|
| `Vocabulary.ValueIsLowerCaseName` | service/config/vocabulary.py:8-16 | `auto()` gives the members the registry keys "settings" and "logger", the lower-cased member names |
| `Vocabulary.ValueInjective` | service/config/vocabulary.py:15-16 | distinct resource names never share a registry key |
| `Vocabulary.Value` | service/config/vocabulary.py:15-16 | the `auto()` value of a member has the member name's length and no upper-case letter |
| `Vocabulary.Lower` | service/config/vocabulary.py:15-16 | lower-casing keeps the length and lower-cases each ASCII capital, leaving other characters alone |
| `SharedRegistry.Registry.constructor` | service/shared/registry.py:15-18 | the class starts with an empty dict, no instance and `_initialized` false |
| `SharedRegistry.Registry.Instantiate` | service/shared/registry.py:20-24 | the first `Registry()` creates the instance and sets `_initialized`; later calls change nothing; the flag never goes back to false; the dict is untouched |
| `SharedRegistry.Registry.IsInitialized` | service/shared/registry.py:27-34 | reports `_initialized`, which implies an instance exists |
| `SharedRegistry.Registry.Register` | service/shared/registry.py:37-47 | an absent name is added with its item at the end of the key order and the count grows by one; a present name leaves the dict and the order unchanged (first writer wins) |
| `SharedRegistry.Registry.Unregister` | service/shared/registry.py:50-59 | a present name alone is removed from the dict and the order, and the count drops by one; an absent name changes nothing |
| `SharedRegistry.Registry.Lookup` | service/shared/registry.py:75 | `dict.get`: `Some` of the stored value exactly when the name is a key, `None` otherwise; a `Some(v)` stands for the stored `v` itself |
| `SharedRegistry.Registry.Get` | service/shared/registry.py:62-75 | returns `Some` of the stored item when the name is a key and `None` exactly when it is absent (see the `Get` line under Left out for a stored `None`); creates the instance if needed without setting `_initialized`; never changes the dict |
| `SharedRegistry.Registry.Count` | service/shared/registry.py:78-85 | the number of keys, equal to the length of the key order, 0 exactly on an empty dict |
| `SharedRegistry.Registry.Reset` | service/shared/registry.py:88-93 | leaves no entries and keeps the singleton state |
| `SharedRegistry.Registry.ListResources` | service/shared/registry.py:96-104 | every registered name exactly once, in insertion order; its elements are the dict's keys and its length the count |
| `SharedRegistry.Load` | service/shared/registry.py:119 | after import the registry is empty and initialized |
| `SharedRegistry.Inject` | service/shared/registry.py:107-116 | `inject(n)` returns what `get(n)` returns and changes only the singleton state, as `Registry()` does |
| `SharedRegistry.WithoutElements` | service/shared/registry.py:57-59 | deleting a key removes exactly that name from the key order's elements |
| `SharedRegistry.WithoutNoDuplicates` | service/shared/registry.py:57-59 | deleting a key keeps the key order free of repeats |
| `SharedRegistry.WithoutAbsent` | service/shared/registry.py:58 | deleting an absent name leaves the key order unchanged |
| `SharedRegistry.NoDuplicatesCardinality` | service/shared/registry.py:103-104 | a repeat-free key order is as long as the set of keys, so `len(list_resources()) == count()` |
| `Settings.ValidateLogLevel` | service/config/settings.py:53-68 | accepts exactly the multiples of 10 from 10 to 50 and returns the input unchanged; otherwise raises with the valid levels and the rejected value |
| `Settings.ValidatorAcceptsNamedLevels` | service/config/settings.py:57-64 | accepted if and only if DEBUG, INFO, WARNING, ERROR or CRITICAL |
| `Settings.ValidatorRejectsOthers` | service/config/settings.py:64-67 | NOTSET (0), 15 and 60 are rejected, not coerced |
| `Settings.LevelOrDefault` | service/config/settings.py:37-46 | a missing level field is the default INFO, which the validator accepts; a supplied one passes the same validator, whichever of the two fields it is |
| `Settings.DefaultLevelIsValid` | service/config/settings.py:37-46 | the default level is INFO (20) and passes the validator |
| `Settings.MakeSettings` | service/config/settings.py:32-68 | `ServiceSettings()`: a constructed record holds two named levels; a failure reports one or two field errors (full contract in the two lemmas below) |
| `Settings.MakeSettingsOk` | service/config/settings.py:32-68 | construction succeeds if and only if every supplied level is a named level; the record then holds the supplied values or the defaults |
| `Settings.MakeSettingsErrors` | service/config/settings.py:53-67 | a failed construction reports each rejected level field once, in field order, with its value |
| `Settings.DefaultsWhenUnset` | service/config/settings.py:32-51 | with nothing supplied, the fields are the two placeholder strings and INFO twice |
| `Utf8.EncodeChar` | service/shared/terminal_colors.py:102 | one code point becomes 1 to 4 bytes, one byte exactly for ASCII, the rest continuation bytes |
| `Utf8.Encode` | service/shared/terminal_colors.py:102 | `.encode("utf-8")` fails exactly on a text holding a surrogate and points at the first one |
| `Utf8.DecodeOne` | service/shared/terminal_colors.py:102 | a well-formed sequence decodes to a non-surrogate code point using 1 to 4 bytes |
| `Utf8.Decode` | service/shared/terminal_colors.py:102 | `.decode("utf-8")`: decoded text holds no surrogate and is at most as long as the bytes; a decode error points inside the input |
| `Utf8.DecodeOneEncodeChar` | service/shared/terminal_colors.py:102 | decoding reads back the code point just encoded, whatever follows |
| `Utf8.DecodeEncode` | service/shared/terminal_colors.py:102 | decoding the UTF-8 encoding of an encodable text gives the text back |
| `TerminalColors.Lift` | service/shared/terminal_colors.py:14-88 | a constant written as a string literal is the same code points, and is encodable |
| `TerminalColors.ColoringAsWritten` | service/shared/terminal_colors.py:91-104 | for encodable inputs, code then text then `RESET`; otherwise `UnicodeEncodeError` escapes |
| `TerminalColors.Coloring` | service/shared/terminal_colors.py:91-104 | for encodable inputs, code then text then `RESET`; otherwise the text unchanged |
| `TerminalColors.EncodableConcat` | service/shared/terminal_colors.py:100-102 | the coloured text can be encoded exactly when code and text can |
| `TerminalColors.Uncolor` | service/shared/terminal_colors.py:100 | whatever it extracts, wrapped back in code and `RESET`, is the input |
| `TerminalColors.ColoringShape` | service/shared/terminal_colors.py:100 | the result starts with the code, ends with `ESC[0m`, has the text in between, and its length is the code's plus the text's plus 4 |
| `TerminalColors.ColoringUncolor` | service/shared/terminal_colors.py:100 | stripping the code prefix and the `RESET` suffix gives the text back |
| `TerminalColors.DefaultCodeArgument` | service/shared/terminal_colors.py:91 | for every text, leaving out the code is passing `LIGHT_CYAN_TXT` |
| `TerminalColors.DefaultCodeIsLightCyan` | service/shared/terminal_colors.py:35 | with no code given, an encodable text is wrapped in `ESC[96m` and `RESET` |
| `TerminalColors.ResetIsSgrZero` | service/shared/terminal_colors.py:14 | `RESET` is ESC `[0m`, SGR 0, four code points |
| `TerminalColors.Aliases` | service/shared/terminal_colors.py:19-48 | `DARK_RED_TXT == BOLDARK_RED_TXT` and `LIGHT_YELLOW_BG == BRIGHT_YELLOW_BG` |
| `TerminalColors.SurrogateEscapes` | service/shared/terminal_colors.py:100-104 | as written, a text made of one lone surrogate raises `UnicodeEncodeError` at index 5; the corrected version returns the text |
| `TerminalColors.ColoringAgrees` | service/shared/terminal_colors.py:100-104 | wherever the code as written returns, its value is the corrected version's |

## Left out

- The `threading.Lock` in `Registry` is left out. Each method is modelled as one atomic step, so the model says nothing about concurrent callers or about the unlocked reads.
- Values stored in the registry are opaque. They are a type parameter `V`, standing for Python's `Any`.
- `SharedRegistry.Registry.Get`: a stored `None` comes back from Python's `get` as `None`, so the source cannot tell it from an absent name. The model's `Some(v)` keeps the two apart. The same holds for `SharedRegistry.Registry.Lookup` and `SharedRegistry.Inject`. Only values other than `None` (the settings object and the logger) are ever registered.
- Keys are any string, as in the source's `str` annotation. The two `ResourceName` values are their only use.
- Loading settings from the environment and the `.env` file is pydantic-settings behaviour and I/O. That covers case-insensitive keys, ignoring unknown keys, the precedence between the environment and the file, and parsing text to `int` (so `LOGGING_LEVEL=NOTALEVEL` fails before the validator). `MakeSettings` takes the values already parsed.
- `MakeSettings`: pydantic's error message text and error type names are not modelled. The structured error keeps the field, the accepted levels and the rejected value.
- service/shared/logger.py is not part of this model. It configures foreign `logging`/`colorlog` state. Its registry calls are ordinary `Register` and `Inject` calls: one mutation, registering `"logger"` (logger.py:70), and three lookups with `inject` (logger.py:25, :27 and :40).
- service/config/bootstrap.py is not part of this model. It is orchestration of library calls, Its registry calls are two mutations, registering `"settings"` (bootstrap.py:23) and then `"logger"` through logger.py, plus one `inject` of the logger (bootstrap.py:28).
- service/main.py is the entry point. It runs the bootstrap, looks up the logger with `inject`, logs and prints, and re-raises on failure. `sum_two_numbers` is a placeholder. The `__main__` demo of terminal_colors.py only prints. Both are left out. Apart from the bootstrap's calls, main.py touches the registry only through one `inject` of the logger, a modelled `Inject`.
- `Utf8.Decode`: its error position is the start of the first malformed sequence. Python's finer-grained reporting of maximal subparts is not modelled. Only whether decoding succeeds matters to `coloring`.

## Findings

| source | as written | input that shows it | evidently intended | confidence | as-written member | corrected member |
|---|---|---|---|---|---|---|
| service/shared/terminal_colors.py:101-104 | `try` catches only `UnicodeDecodeError`. Decoding freshly encoded UTF-8 never raises it, so the fallback is dead. `.encode` raises `UnicodeEncodeError` on a lone surrogate, and that error escapes `coloring`. | `coloring("\udc80")` raises `UnicodeEncodeError` at index 5 | if the UTF-8 round trip fails, return the text uncoloured | medium, not executed | `TerminalColors.ColoringAsWritten`, `TerminalColors.SurrogateEscapes` | `TerminalColors.Coloring` |
