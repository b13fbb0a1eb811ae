/** keyboards/inline.py: inline keyboards as rows of (label, callback data)
    buttons. */
module Keyboards {
  import opened PyText
  import opened Records

  datatype Button = Button(text: string, data: string)

  type Keyboard = seq<seq<Button>>

  const CategoryPrefix: string := "category_"

  /** video_navigation_keyboard: Previous and Next on one row, Category on
      the next. */
  function VideoNavigationKeyboard(): (k: Keyboard)
    ensures |k| == 2 && |k[0]| == 2 && |k[1]| == 1
    ensures k[0][0].data == "prev_" && k[0][1].data == "next_" && k[1][0].data == "show_categories"
  {
    [
      [Button("\U{2B05}\U{FE0F} Previous", "prev_"), Button("\U{27A1}\U{FE0F} Next", "next_")],
      [Button("\U{1F4C2} Category", "show_categories")]
    ]
  }

  /** The callback data of a category's button. */
  function CategoryData(name: string): string {
    CategoryPrefix + name
  }

  /** category_keyboard: one single-button row per category, in order. */
  function CategoryKeyboard(cats: seq<Category>): (k: Keyboard)
    ensures |k| == |cats|
    ensures forall i :: 0 <= i < |cats| ==> k[i] == [Button(cats[i].name, CategoryData(cats[i].name))]
  {
    if cats == [] then []
    else
      var rest := CategoryKeyboard(cats[1..]);
      [[Button(cats[0].name, CategoryData(cats[0].name))]] + rest
  }

  /** Every button of a category keyboard is routed to the category
      handler, whose pattern is "^category_". */
  lemma {:induction false} CategoryButtonsRouted(cats: seq<Category>)
    ensures forall row :: row in CategoryKeyboard(cats) ==> forall b :: b in row ==> CategoryPrefix <= b.data
  {
    var k := CategoryKeyboard(cats);
    forall row | row in k ensures forall b :: b in row ==> CategoryPrefix <= b.data {
      var i :| 0 <= i < |k| && k[i] == row;
      assert row == [Button(cats[i].name, CategoryPrefix + cats[i].name)];
    }
  }

  /** The handler's str.replace("category_", "") on a button's data gives
      the category back exactly when the name does not itself contain
      "category_". */
  lemma CategoryDataRoundTrip(name: string)
    ensures RemoveAll(CategoryData(name), CategoryPrefix) == name <==> !Contains(name, CategoryPrefix)
  {
    var data := CategoryData(name);
    assert CategoryPrefix <= data;
    assert data[|CategoryPrefix|..] == name;
    assert RemoveAll(data, CategoryPrefix) == RemoveAll(name, CategoryPrefix);
    if Contains(name, CategoryPrefix) {
      RemoveAllPresent(name, CategoryPrefix);
    } else {
      RemoveAllAbsent(name, CategoryPrefix);
    }
  }
}
