/** What resolving namespaces leaves alone: a tree without colons and declarations altogether, and the text and the
    shape of every tree. */
module XmlNamespaces {
  import opened Text
  import opened XmlTree

  predicate PlainTree(e: Element)
    decreases e
  {
    ':' !in e.name && PlainKeys(e.attributes) && PlainItems(e.content)
  }

  predicate PlainKeys(attributes: map<string, string>) {
    forall a :: a in attributes ==> ':' !in a && a != "xmlns"
  }

  predicate PlainItem(item: Item)
    decreases item
  {
    item.Child? ==> PlainTree(item.element)
  }

  predicate PlainItems(items: seq<Item>)
    decreases items
  {
    forall i :: 0 <= i < |items| ==> PlainItem(items[i])
  }

  predicate NothingDeclared(scopes: seq<map<string, string>>) {
    forall i :: 0 <= i < |scopes| ==> PlainKeys(scopes[i])
  }

  lemma NoColon(name: string)
    requires ':' !in name
    ensures Find(":", name, 0) == -1 && !StartsAt(name, 0, "xmlns:")
  {
    assert ":"[0] == ':' && "xmlns:"[5] == ':';
  }

  lemma {:induction false} NoDefault(scopes: seq<map<string, string>>)
    requires NothingDeclared(scopes)
    ensures Namespace("", scopes) == ""
    decreases |scopes|
  {
    if scopes != [] {
      NoDefault(scopes[..|scopes| - 1]);
    }
    assert "" != "xml";
  }

  lemma PlainKey(attributes: map<string, string>, a: string, scopes: seq<map<string, string>>)
    requires PlainKeys(attributes) && a in attributes
    ensures !Declares(a) && ResolveName(a, scopes, false) == Some(a)
  {
    hide Find, StartsAt;
    NoColon(a);
  }

  lemma PlainKeysKept(attributes: map<string, string>, scopes: seq<map<string, string>>)
    requires PlainKeys(attributes)
    ensures forall a :: a in attributes ==> !Declares(a)
    ensures ResolveAttributes(attributes, scopes) == Some(attributes)
  {
    hide ResolveName, Declares, PlainKeys;
    forall a | a in attributes ensures !Declares(a) && ResolveName(a, scopes, false) == Some(a) {
      PlainKey(attributes, a, scopes);
    }
    var kept := set a | a in attributes && !Declares(a);
    assert kept == attributes.Keys;
    hide Renamed;
    SameNames(attributes, scopes);
  }

  lemma SameNames(attributes: map<string, string>, scopes: seq<map<string, string>>)
    requires forall a :: a in attributes ==> ResolveName(a, scopes, false) == Some(a)
    ensures Nameable(attributes.Keys, scopes) && Renamed(attributes, attributes.Keys, scopes) == attributes
  {
    hide ResolveName;
    var renamed := Renamed(attributes, attributes.Keys, scopes);
    assert forall a :: a in attributes ==> a in renamed && renamed[a] == attributes[a] by {
      forall a | a in attributes ensures a in renamed && renamed[a] == attributes[a] {
        assert ResolveName(a, scopes, false).value == a;
      }
    }
    assert renamed.Keys <= attributes.Keys;
  }

  lemma {:induction false} ResolvePlain(e: Element, scopes: seq<map<string, string>>)
    requires PlainTree(e) && NothingDeclared(scopes)
    ensures Resolve(e, scopes) == Some(e)
    decreases e
  {
    hide Find, Bindable;
    var inner := scopes + [e.attributes];
    NoColon(e.name);
    NoDefault(inner);
    PlainKeysKept(e.attributes, inner);
    ResolvePlainItems(e.content, inner);
  }

  lemma {:induction false} ResolvePlainItem(item: Item, scopes: seq<map<string, string>>)
    requires PlainItem(item) && NothingDeclared(scopes)
    ensures ResolveItem(item, scopes) == Some(item)
    decreases item
  {
    if item.Child? {
      ResolvePlain(item.element, scopes);
    }
  }

  lemma {:induction false} ResolvePlainItems(items: seq<Item>, scopes: seq<map<string, string>>)
    requires PlainItems(items) && NothingDeclared(scopes)
    ensures ResolveItems(items, scopes) == Some(items)
    decreases items
  {
    hide ResolveItem, PlainItem;
    if items != [] {
      ResolvePlainItem(items[0], scopes);
      ResolvePlainItems(items[1..], scopes);
      assert items == [items[0]] + items[1..];
    }
  }

  /** Resolving changes no text, and resolves the children one by one. */
  lemma {:induction false} ContentKept(items: seq<Item>, scopes: seq<map<string, string>>)
    requires ResolveItems(items, scopes).Some?
    ensures var resolved := ResolveItems(items, scopes).value;
      && DirectText(resolved) == DirectText(items)
      && |Children(resolved)| == |Children(items)|
      && forall i :: 0 <= i < |Children(items)| ==> Resolve(Children(items)[i], scopes) == Some(Children(resolved)[i])
    decreases |items|
  {
    hide Resolve;
    if items != [] {
      ContentKept(items[1..], scopes);
      var resolved := ResolveItems(items, scopes).value;
      assert resolved[1..] == ResolveItems(items[1..], scopes).value;
    }
  }

  /** A resolved element: its text is the same, and an unprefixed name can only gain a namespace. */
  lemma ElementKept(e: Element, scopes: seq<map<string, string>>)
    requires Resolve(e, scopes).Some?
    ensures var r := Resolve(e, scopes).value;
      && ResolveItems(e.content, scopes + [e.attributes]) == Some(r.content)
      && DirectText(r.content) == DirectText(e.content)
      && (Children(r.content) == [] <==> Children(e.content) == [])
      && (':' !in e.name ==> r.name == e.name || (r.name != "" && r.name[0] == '{'))
  {
    hide ResolveItems, DirectText, Children, Namespace, Bindable, Find, ResolveAttributes;
    ContentKept(e.content, scopes + [e.attributes]);
    if ':' !in e.name {
      NoColon(e.name);
    }
  }

  /** An element without attributes and without elements around it has its own name. */
  lemma BareRoot(e: Element)
    requires Resolve(e, []).Some? && e.attributes == map[] && ':' !in e.name
    ensures Resolve(e, []).value.name == e.name && Resolve(e, []).value.attributes == map[]
  {
    hide ResolveItems, Bindable, Find, ResolveAttributes;
    var inner := [e.attributes];
    assert [] + [e.attributes] == inner;
    NoColon(e.name);
    NoDefault(inner);
    PlainKeysKept(e.attributes, inner);
  }
}
