/**
 * The model handler for extension-registry configuration elements
 * (ICEAdapter): property lookup, with a constructed "label", and the
 * adapter-factory answers.
 */
module ICEAdapter {
  import opened Wrappers

  /** A configuration element: its own element name and its attribute values. */
  datatype ConfigElement = ConfigElement(name: string, attributes: map<string, string>)

  /** The value `getAttribute(key)` returns: `None` when the attribute is absent. */
  function Attribute(e: ConfigElement, key: string): Option<string> {
    if key in e.attributes then Some(e.attributes[key]) else None
  }

  /**
   * What `getProperty` returns: a string, `null`, or the executable
   * extension made from the element's "class" attribute.
   */
  datatype PropertyValue = Text(s: string) | Null | Extension(of: ConfigElement)

  const LabelId := "label"
  const ClassImpl := "classImpl"

  /** The constructed label: "name [id]", the name alone, the id alone, or the element name. */
  function Label(e: ConfigElement): (r: string)
    ensures Attribute(e, "name").Some? && Attribute(e, "id").Some? ==>
              r == e.attributes["name"] + " [" + e.attributes["id"] + "]"
    ensures Attribute(e, "name").Some? && Attribute(e, "id").None? ==> r == e.attributes["name"]
    ensures Attribute(e, "name").None? && Attribute(e, "id").Some? ==> r == e.attributes["id"]
    ensures Attribute(e, "name").None? && Attribute(e, "id").None? ==> r == e.name
  {
    var idVal := Attribute(e, "id");
    var nameVal := Attribute(e, "name");
    match nameVal
    case Some(n) => if idVal.Some? then n + " [" + idVal.value + "]" else n
    case None => if idVal.Some? then idVal.value else e.name
  }

  /** `getProperty`: the label for "label", the extension for "classImpl", otherwise the attribute. */
  function GetProperty(e: ConfigElement, id: string): (r: PropertyValue)
    ensures id == LabelId ==> r == Text(Label(e))
    ensures id == ClassImpl ==> r == Extension(e)
    ensures id != LabelId && id != ClassImpl ==>
              (r == Null <==> id !in e.attributes) &&
              (id in e.attributes ==> r == Text(e.attributes[id]))
  {
    if id == LabelId then Text(Label(e))
    else if id == ClassImpl then Extension(e)
    else match Attribute(e, id)
      case Some(v) => Text(v)
      case None => Null
  }

  /** A name attribute always leads the label. */
  lemma LabelStartsWithName(e: ConfigElement)
    requires "name" in e.attributes
    ensures e.attributes["name"] <= Label(e)
  {
    var n := e.attributes["name"];
    if "id" in e.attributes {
      assert Label(e) == n + (" [" + e.attributes["id"] + "]");
    }
  }

  /** An id attribute always ends the label, followed by "]" when a name precedes it. */
  lemma LabelEndsWithId(e: ConfigElement)
    requires "id" in e.attributes
    ensures var id, l := e.attributes["id"], Label(e);
            var tail := if "name" in e.attributes then id + "]" else id;
            |tail| <= |l| && l[|l| - |tail|..] == tail
  {
    var id, l := e.attributes["id"], Label(e);
    if "name" in e.attributes {
      var tail := id + "]";
      assert l == (e.attributes["name"] + " [") + tail;
      assert l[|l| - |tail|..] == tail;
    } else {
      assert l[|l| - |id|..] == id;
    }
  }

  /** The label is empty exactly when every part it is built from is empty. */
  lemma LabelEmpty(e: ConfigElement)
    ensures Label(e) == "" <==>
              if "name" in e.attributes then e.attributes["name"] == "" && "id" !in e.attributes
              else if "id" in e.attributes then e.attributes["id"] == ""
              else e.name == ""
  {
    if "name" in e.attributes && "id" in e.attributes {
      assert |Label(e)| >= 3;
    }
  }

  /** The adapter type registered for configuration elements. */
  datatype AdapterType = ModelHandlerBase

  /**
   * The adapter factory itself. It has no state of its own; `instance`
   * stands for its object identity, which is all `getAdapter` hands out.
   */
  datatype Adapter = Adapter(instance: nat) {

    /** `getAdapter` answers with this very factory, whatever it is asked for. */
    function GetAdapter<T>(adaptable: T, adapterType: AdapterType): (r: Adapter)
      ensures r == this
    {
      this
    }

    /** `getAdapterList` names exactly one adapter type. */
    function GetAdapterList(): (r: seq<AdapterType>)
      ensures |r| == 1 && r[0] == ModelHandlerBase
    {
      [ModelHandlerBase]
    }
  }
}
