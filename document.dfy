/** The record of one parsed input: its form id, its contract-number
    element and the root of its tree. */
module Documents {
  import opened Wrappers
  import opened Tree

  class Document {
    var formId: string
    /** The contract-number element; None when find_tag found none. */
    var contractNumber: Option<Node>
    /** The tree the comparison walks (the document's root element). */
    var form: Node

    /** Stores the three values as given. */
    constructor (formId: string, contractNumber: Option<Node>, form: Node)
      ensures GetFormId() == formId
      ensures GetContractNumber() == contractNumber
      ensures GetForm() == form
    {
      this.formId := formId;
      this.contractNumber := contractNumber;
      this.form := form;
    }

    function GetFormId(): (r: string)
      reads this
      ensures r == formId
    {
      formId
    }

    function GetContractNumber(): (r: Option<Node>)
      reads this
      ensures r == contractNumber
    {
      contractNumber
    }

    function GetForm(): (r: Node)
      reads this
      ensures r == form
    {
      form
    }

    /** Replaces the form id; the other two fields keep their values. */
    method SetFormId(formId: string)
      modifies this`formId
      ensures GetFormId() == formId
      ensures GetContractNumber() == old(GetContractNumber())
      ensures GetForm() == old(GetForm())
    {
      this.formId := formId;
    }

    /** Replaces the contract-number element; the other two fields keep their values. */
    method SetContractNumber(contractNumber: Option<Node>)
      modifies this`contractNumber
      ensures GetContractNumber() == contractNumber
      ensures GetFormId() == old(GetFormId())
      ensures GetForm() == old(GetForm())
    {
      this.contractNumber := contractNumber;
    }

    /** Replaces the tree; the other two fields keep their values. */
    method SetForm(form: Node)
      modifies this`form
      ensures GetForm() == form
      ensures GetFormId() == old(GetFormId())
      ensures GetContractNumber() == old(GetContractNumber())
    {
      this.form := form;
    }
  }
}
