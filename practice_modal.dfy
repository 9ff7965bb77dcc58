/**
 * The dialog where the user picks a test of an institution or writes a
 * custom practice: the selection state, the lookup of the chosen test and the
 * validation of the custom practice.
 */
module PracticeModal {
  import opened Options
  import opened Text

  /** A test an institution sets: its time limit and the words it demands. */
  datatype Prueba = Prueba(id: int, institucionId: int, nombre: string, minutos: int, minimoPalabras: int)

  /** The custom practice handed to the page: the trimmed text, the word goal and the minutes. */
  datatype CustomConfig = CustomConfig(texto: string, objetivoPalabras: int, minutos: int)

  /** A selected id in a JavaScript condition: no selection and the id 0 (what an emptied select yields) are false. */
  predicate Chosen(id: Option<int>) {
    id.Some? && id.value != 0
  }

  /** `pruebas.find(p => p.id === id)`: the first test with that id, if any. */
  function FindById(pruebas: seq<Prueba>, id: int): (found: Option<Prueba>)
    ensures found.Some? ==> found.value in pruebas && found.value.id == id
    ensures found.None? <==> forall k :: 0 <= k < |pruebas| ==> pruebas[k].id != id
  {
    if pruebas == [] then None
    else if pruebas[0].id == id then Some(pruebas[0])
    else
      assert forall k :: 1 <= k < |pruebas| ==> pruebas[k] == pruebas[1..][k - 1];
      FindById(pruebas[1..], id)
  }

  /** When several tests share the id, the one found is the first of them. */
  lemma {:induction false} FindByIdIsFirst(pruebas: seq<Prueba>, id: int, k: nat)
    requires k < |pruebas| && pruebas[k].id == id
    requires forall j :: 0 <= j < k ==> pruebas[j].id != id
    ensures FindById(pruebas, id) == Some(pruebas[k])
  {
    if k > 0 {
      assert pruebas[0].id != id;
      assert pruebas[1..][k - 1] == pruebas[k];
      assert forall j :: 0 <= j < k - 1 ==> pruebas[1..][j] == pruebas[j + 1];
      FindByIdIsFirst(pruebas[1..], id, k - 1);
    }
  }

  /** The dialog's state. */
  class PracticeDialog {
    var pruebas: seq<Prueba>
    var selectedInstitucionId: Option<int>
    var selectedPruebaId: Option<int>
    var customText: string
    var customObjetivoPalabras: int
    var customMinutos: int

    constructor ()
      ensures pruebas == [] && selectedInstitucionId == None && selectedPruebaId == None
      ensures customText == "" && customObjetivoPalabras == 30 && customMinutos == 1
    {
      pruebas := [];
      selectedInstitucionId := None;
      selectedPruebaId := None;
      customText := "";
      customObjetivoPalabras := 30;
      customMinutos := 1;
    }

    /** Choosing an institution selects it and forgets the chosen test. */
    method InstitucionChange(institucionId: int)
      modifies this
      ensures selectedInstitucionId == Some(institucionId) && selectedPruebaId == None
      ensures pruebas == old(pruebas) && customText == old(customText)
      ensures customObjetivoPalabras == old(customObjetivoPalabras) && customMinutos == old(customMinutos)
    {
      selectedInstitucionId := Some(institucionId);
      selectedPruebaId := None;
    }

    /** Choosing a test remembers its id. */
    method PruebaChange(pruebaId: int)
      modifies this
      ensures selectedPruebaId == Some(pruebaId)
      ensures selectedInstitucionId == old(selectedInstitucionId) && pruebas == old(pruebas)
      ensures customText == old(customText)
      ensures customObjetivoPalabras == old(customObjetivoPalabras) && customMinutos == old(customMinutos)
    {
      selectedPruebaId := Some(pruebaId);
    }

    /**
     * The effect on the selected institution: without one the list of tests is
     * emptied; with one it becomes the fetched list, or stays as it was when the
     * fetch failed.
     */
    method SyncPruebas(fetched: Option<seq<Prueba>>)
      modifies this
      ensures !Chosen(selectedInstitucionId) ==> pruebas == []
      ensures PruebaSelectDisabled() ==> pruebas == []
      ensures Chosen(selectedInstitucionId) && fetched.Some? ==> pruebas == fetched.value
      ensures Chosen(selectedInstitucionId) && fetched.None? ==> pruebas == old(pruebas)
      ensures selectedInstitucionId == old(selectedInstitucionId) && selectedPruebaId == old(selectedPruebaId)
      ensures customText == old(customText)
      ensures customObjetivoPalabras == old(customObjetivoPalabras) && customMinutos == old(customMinutos)
    {
      if Chosen(selectedInstitucionId) {
        if fetched.Some? {
          pruebas := fetched.value;
        }
      } else {
        pruebas := [];
      }
    }

    /** The list of tests can be used only once an institution is chosen. */
    predicate PruebaSelectDisabled()
      reads this
      ensures PruebaSelectDisabled() <==> selectedInstitucionId.None? || selectedInstitucionId.value == 0
    {
      !Chosen(selectedInstitucionId)
    }

    /** The "select test" button is disabled without a chosen test. */
    predicate SelectDisabled()
      reads this
      ensures SelectDisabled() <==> selectedPruebaId.None? || selectedPruebaId.value == 0
    {
      !Chosen(selectedPruebaId)
    }

    /**
     * `handleSelectPractice`: the chosen test, when one is chosen and listed;
     * the dialog closes exactly when a test is handed over.
     */
    method SelectPractice() returns (picked: Option<Prueba>)
      ensures picked.Some? ==> Chosen(selectedPruebaId) && picked.value in pruebas && picked.value.id == selectedPruebaId.value
      ensures picked.None? <==> SelectDisabled() || forall k :: 0 <= k < |pruebas| ==> pruebas[k].id != selectedPruebaId.value
    {
      picked := None;
      if Chosen(selectedPruebaId) {
        var prueba := FindById(pruebas, selectedPruebaId.value);
        if prueba.Some? {
          picked := prueba;
        }
      }
    }

    /** The guard of `handleCustomPractice`: some non-blank text, a positive word goal and a positive time. */
    predicate CanStartCustom()
      reads this
      ensures CanStartCustom() <==> !IsBlank(customText) && customObjetivoPalabras > 0 && customMinutos > 0
    {
      Trim(customText) != "" && customObjetivoPalabras > 0 && customMinutos > 0
    }

    /** The custom practice button's own condition: disabled exactly when the handler would do nothing. */
    predicate CustomDisabled()
      reads this
      ensures CustomDisabled() <==> !CanStartCustom()
    {
      Trim(customText) == "" || customObjetivoPalabras <= 0 || customMinutos <= 0
    }

    /**
     * `handleCustomPractice`: when the guard holds, the trimmed text with the
     * goal and the minutes (and the dialog closes); otherwise nothing.
     */
    method CustomPractice() returns (config: Option<CustomConfig>)
      ensures config.Some? <==> CanStartCustom()
      ensures config.Some? ==>
                config.value.texto == Trim(customText) && IsTrimmed(config.value.texto) && config.value.texto != ""
                && config.value.objetivoPalabras == customObjetivoPalabras > 0 && config.value.minutos == customMinutos > 0
    {
      var texto := Trim(customText);
      if texto != "" && customObjetivoPalabras > 0 && customMinutos > 0 {
        config := Some(CustomConfig(texto, customObjetivoPalabras, customMinutos));
      } else {
        config := None;
      }
    }
  }
}
