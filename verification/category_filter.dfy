/** The category strip: six fixed labels and a single optional selection. */
module CategoryFilter {
  import opened Wrappers
  import opened Seqs

  /** The labels offered, in display order. */
  const Categories: seq<string> := ["Articles", "Videos", "Tutorials", "News", "Social", "Other"]

  /** Six labels, none repeated. */
  lemma CategoriesShape()
    ensures |Categories| == 6 && Distinct(Categories)
    ensures Categories[0] == "Articles" && Categories[5] == "Other"
  {
  }

  /** Pressing a label: the selected label is cleared, any other label becomes the selection. */
  function Press(selected: Option<string>, category: string): (r: Option<string>)
    ensures selected == Some(category) ==> r.None?
    ensures selected != Some(category) ==> r == Some(category)
  {
    if selected == Some(category) then None else Some(category)
  }

  /** Pressing the same label twice returns to no selection or to that label. */
  lemma PressTwice(selected: Option<string>, category: string)
    requires selected.None? || selected == Some(category)
    ensures Press(Press(selected, category), category) == selected
  {
  }

  /** After a press the selection is either empty or the pressed label. */
  lemma PressSelectsPressed(selected: Option<string>, category: string)
    ensures Press(selected, category).None? || Press(selected, category) == Some(category)
  {
  }
}
