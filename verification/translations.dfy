/** Collection of the translation keys a game text uses, with their
    translations in the client's language (`ClientTranslationUtils`). */
module Translations {

  /** A game text node: its own content and the texts appended after it. */
  datatype Text = Text(content: Content, siblings: seq<Text>)

  /** Text content: a literal string, a translatable key with its
      substitution arguments, or any other kind (keybind, score, selector,
      NBT), which carries no key. */
  datatype Content =
    | Literal(literal: string)
    | Translatable(key: string, args: seq<Arg>)
    | OtherContent

  /** A translation argument is a nested text, a plain string, or any other
      object (a number, say). */
  datatype Arg = TextArg(text: Text) | StringArg(str: string) | OtherArg

  // Reference definition: the keys of a text, as a plain structural union.

  /** Every key a text contributes: the keys of each translatable node
      reachable through arguments and siblings, the plain string arguments of
      those nodes, and nothing else. */
  function KeysOf(t: Text): (keys: set<string>)
    decreases t, 2
  {
    ContentKeys(t.content) + SiblingKeys(t.siblings)
  }

  function ContentKeys(c: Content): (keys: set<string>)
    decreases c, 1
  {
    match c
    case Translatable(key, args) => {key} + ArgKeys(args)
    case _ => {}
  }

  function ArgKeys(args: seq<Arg>): (keys: set<string>)
    decreases args, 0
  {
    if |args| == 0 then {}
    else
      var first := match args[0]
        case TextArg(t) => assert t < args[0]; KeysOf(t)
        case StringArg(s) => {s}
        case OtherArg => {};
      first + ArgKeys(args[1..])
  }

  function SiblingKeys(siblings: seq<Text>): (keys: set<string>)
    decreases siblings, 0
  {
    if |siblings| == 0 then {} else KeysOf(siblings[0]) + SiblingKeys(siblings[1..])
  }

  // The collection as the client performs it: one walk that threads the
  // key set through arguments, then siblings, adding each key if absent.

  /** `collectTranslationKeys`: adds the keys of `t` to `keys`. */
  function CollectTranslationKeys(t: Text, keys: set<string>): (r: set<string>)
    ensures r == keys + KeysOf(t)
    decreases t, 2
  {
    var afterContent :=
      match t.content
      case Translatable(key, args) => CollectArgs(args, keys + {key})
      case _ => keys;
    CollectSiblings(t.siblings, afterContent)
  }

  /** The loop over a translatable node's arguments: nested texts are
      walked, plain strings are added as keys, anything else is skipped. */
  function CollectArgs(args: seq<Arg>, keys: set<string>): (r: set<string>)
    ensures r == keys + ArgKeys(args)
    decreases args, 0
  {
    if |args| == 0 then keys
    else
      var next := match args[0]
        case TextArg(t) => assert t < args[0]; CollectTranslationKeys(t, keys)
        case StringArg(s) => keys + {s}
        case OtherArg => keys;
      CollectArgs(args[1..], next)
  }

  /** The loop over a node's siblings, run for every node. */
  function CollectSiblings(siblings: seq<Text>, keys: set<string>): (r: set<string>)
    ensures r == keys + SiblingKeys(siblings)
    decreases siblings, 0
  {
    if |siblings| == 0 then keys
    else CollectSiblings(siblings[1..], CollectTranslationKeys(siblings[0], keys))
  }

  /** `Language.get(key, fallback)`: the translation, or the fallback when the
      language has none. */
  function LanguageGet(language: map<string, string>, key: string, fallback: string): (translated: string) {
    if key in language then language[key] else fallback
  }

  /** `populateTranslations`: every collected key gets its translation, or
      itself when the language has none. */
  function PopulateTranslations(keys: set<string>, language: map<string, string>): (m: map<string, string>)
    ensures m.Keys == keys
    ensures forall k :: k in m ==> (k in language ==> m[k] == language[k]) && (k !in language ==> m[k] == k)
  {
    map k | k in keys :: LanguageGet(language, k, k)
  }

  /** `extractTranslations`: the map from every key the text uses to its
      translation, falling back to the key itself. */
  function ExtractTranslations(t: Text, language: map<string, string>): (m: map<string, string>)
    ensures m.Keys == KeysOf(t)
    ensures forall k :: k in m ==> (k in language ==> m[k] == language[k]) && (k !in language ==> m[k] == k)
  {
    PopulateTranslations(CollectTranslationKeys(t, {}), language)
  }

  // An independent view: does the text contain a translatable node at all?

  predicate HasTranslatable(t: Text)
    decreases t, 2
  {
    ContentHasTranslatable(t.content) || SiblingsHaveTranslatable(t.siblings)
  }

  predicate ContentHasTranslatable(c: Content)
    decreases c, 1
  {
    c.Translatable?
  }

  predicate SiblingsHaveTranslatable(siblings: seq<Text>)
    decreases siblings, 0
  {
    |siblings| > 0 && (HasTranslatable(siblings[0]) || SiblingsHaveTranslatable(siblings[1..]))
  }

  /** A text contributes keys exactly when it contains a translatable node
      among itself and its siblings; in particular a text without one gives
      an empty translation map. */
  lemma {:induction false} KeysExactlyWhenTranslatable(t: Text)
    ensures KeysOf(t) != {} <==> HasTranslatable(t)
    decreases t, 2
  {
    if t.content.Translatable? {
      assert t.content.key in KeysOf(t);
    }
    SiblingKeysExactlyWhenTranslatable(t.siblings);
  }

  lemma {:induction false} SiblingKeysExactlyWhenTranslatable(siblings: seq<Text>)
    ensures SiblingKeys(siblings) != {} <==> SiblingsHaveTranslatable(siblings)
    decreases siblings, 0
  {
    if |siblings| > 0 {
      KeysExactlyWhenTranslatable(siblings[0]);
      SiblingKeysExactlyWhenTranslatable(siblings[1..]);
    }
  }

  /** The translation map of a text is empty exactly when the text has no
      translatable node. */
  lemma EmptyMapWithoutTranslatable(t: Text, language: map<string, string>)
    ensures ExtractTranslations(t, language) == map[] <==> !HasTranslatable(t)
  {
    KeysExactlyWhenTranslatable(t);
    var m := ExtractTranslations(t, language);
    if m == map[] {
      assert KeysOf(t) == m.Keys == {};
    } else {
      var k :| k in m;
      assert k in KeysOf(t);
    }
  }

  /** What a translatable node contributes: its own key, each plain string
      argument, the keys of each text argument, and those of each sibling;
      other arguments add nothing. */
  lemma {:induction false} TranslatableNodeContributes(key: string, args: seq<Arg>, siblings: seq<Text>)
    ensures key in KeysOf(Text(Translatable(key, args), siblings))
    ensures forall i :: 0 <= i < |args| && args[i].StringArg? ==> args[i].str in KeysOf(Text(Translatable(key, args), siblings))
    ensures forall i :: 0 <= i < |args| && args[i].TextArg? ==> KeysOf(args[i].text) <= KeysOf(Text(Translatable(key, args), siblings))
    ensures forall i :: 0 <= i < |siblings| ==> KeysOf(siblings[i]) <= KeysOf(Text(Translatable(key, args), siblings))
  {
    ArgKeysCover(args);
    SiblingKeysCover(siblings);
  }

  lemma {:induction false} ArgKeysCover(args: seq<Arg>)
    ensures forall i :: 0 <= i < |args| && args[i].StringArg? ==> args[i].str in ArgKeys(args)
    ensures forall i :: 0 <= i < |args| && args[i].TextArg? ==> KeysOf(args[i].text) <= ArgKeys(args)
    ensures forall i :: 0 <= i < |args| && args[i].OtherArg? ==> ArgKeys(args) == ArgKeys(args[..i]) + ArgKeys(args[i + 1..])
  {
    if |args| > 0 {
      ArgKeysCover(args[1..]);
      forall i | 0 < i < |args|
        ensures args[i] == args[1..][i - 1]
      {
      }
      forall i | 0 <= i < |args| && args[i].OtherArg?
        ensures ArgKeys(args) == ArgKeys(args[..i]) + ArgKeys(args[i + 1..])
      {
        ArgKeysSplit(args, i);
      }
    }
  }

  /** Argument keys distribute over splitting the argument list around one
      argument. */
  lemma {:induction false} ArgKeysSplit(args: seq<Arg>, i: nat)
    requires i < |args|
    ensures ArgKeys(args) == ArgKeys(args[..i]) + ArgKeys([args[i]]) + ArgKeys(args[i + 1..])
    decreases i
  {
    if i == 0 {
      assert args[..0] == [];
      assert [args[0]][1..] == [];
    } else {
      ArgKeysSplit(args[1..], i - 1);
      assert args[1..][..i - 1] == args[1..i];
      assert args[..i][1..] == args[1..i];
      assert args[1..][i - 1 + 1..] == args[i + 1..];
      assert args[1..][i - 1] == args[i];
    }
  }

  lemma {:induction false} SiblingKeysCover(siblings: seq<Text>)
    ensures forall i :: 0 <= i < |siblings| ==> KeysOf(siblings[i]) <= SiblingKeys(siblings)
  {
    if |siblings| > 0 {
      SiblingKeysCover(siblings[1..]);
      forall i | 0 < i < |siblings|
        ensures siblings[i] == siblings[1..][i - 1]
      {
      }
    }
  }
}
